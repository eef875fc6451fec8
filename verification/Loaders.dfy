/** The systemd-boot loader manager: installing entries and cleaning up, as the program does it. */
module Loaders {
  import opened Text
  import opened Fat
  import opened Volumes
  import opened AtomicCopy
  import opened Compare
  import opened Entries
  import opened Assets
  import opened Conf
  import opened Cmdlines
  import opened SyncPlan

  datatype Failure = HashingFailed | InstallFailed

  // ---------------------------------------------------------------- what may be touched

  /** An operation of some attempt to install an entry of the request. */
  ghost predicate InstallShape(req: Request, op: Op) {
    || (op.MkDir? && op.path != [] && Key(op.path) <= Key(["loader", "entries"]))
    || (exists item | item in req.items :: op.Write? && Key(op.path) == Key(WantedConf(req, item)))
    || (exists item, asset, dest: Path | item in req.items && asset in item.entry.Assets() && dest != [] ::
          Key(dest) == Key(WantedDest(req, item, asset)) && CopyShape(op, dest))
  }

  ghost predicate InstallShapes(req: Request, ops: seq<Op>) {
    forall op | op in ops :: InstallShape(req, op)
  }

  lemma InstallShapesConcat(req: Request, a: seq<Op>, b: seq<Op>)
    requires InstallShapes(req, a) && InstallShapes(req, b)
    ensures InstallShapes(req, a + b)
  {
  }

  lemma CopyIsInstall(req: Request, item: Item, asset: HashedAsset, dest: Path, ops: seq<Op>)
    requires item in req.items && asset in item.entry.Assets() && dest != []
    requires Key(dest) == Key(WantedDest(req, item, asset)) && CopyShapes(ops, dest)
    ensures InstallShapes(req, ops)
  {
  }

  /** The pair of an asset leads to the asset's key. */
  lemma AssetPairKey(req: Request, d: Disk, item: Item, asset: HashedAsset)
    requires Tree(d)
    ensures Key(AssetPair(req, d, item, asset).dest) == Key(WantedDest(req, item, asset))
  {
    var schema := EffectiveSchema(req, item);
    var base, name := NamespaceDir(d, schema.OsNamespace()), asset.InstalledName(schema, req.table);
    NamespaceKey(d, schema.OsNamespace());
    KeyAppend(["EFI", schema.OsNamespace()], name);
    if |name| == 1 {
      JoinKeepsKey(d, base, name[0]);
      assert Key(name) == [Fold(name[0])];
    } else {
      KeyAppend(base, name);
    }
  }

  lemma NamespaceKey(d: Disk, namespace: string)
    requires Tree(d)
    ensures Key(NamespaceDir(d, namespace)) == Key(["EFI", namespace])
  {
    JoinKeepsKey(d, [], "EFI");
    JoinKeepsKey(d, JoinAt(d, [], "EFI"), namespace);
  }

  lemma EntriesKey(d: Disk)
    requires Tree(d)
    ensures Key(EntriesDir(d)) == Key(["loader", "entries"])
  {
    JoinKeepsKey(d, [], "loader");
    JoinKeepsKey(d, JoinAt(d, [], "loader"), "entries");
  }

  lemma ConfPathKey(req: Request, d: Disk, item: Item)
    requires Tree(d)
    ensures Key(JoinAt(d, EntriesDir(d), ConfName(req, item))) == Key(WantedConf(req, item))
  {
    EntriesKey(d);
    JoinKeepsKey(d, EntriesDir(d), ConfName(req, item));
    KeyAppend(["loader", "entries"], [ConfName(req, item)]);
    assert Key([ConfName(req, item)]) == [Fold(ConfName(req, item))];
    assert ["loader", "entries"] + [ConfName(req, item)] == ["loader", "entries", ConfName(req, item)];
  }

  // ---------------------------------------------------------------- installing

  /** Every pair is the pair of an asset of the item. */
  ghost predicate PairsOf(req: Request, item: Item, pairs: seq<Pair>) {
    forall pair | pair in pairs ::
      && pair.dest != []
      && exists asset | asset in item.entry.Assets() :: Key(pair.dest) == Key(WantedDest(req, item, asset))
  }

  method CopyOne(vol: Volume, req: Request, ghost item: Item, pair: Pair) returns (ok: bool, ghost added: seq<Op>)
    requires vol.Valid() && item in req.items && pair.dest != [] && PairsOf(req, item, [pair])
    modifies vol
    ensures vol.Valid() && vol.ops == old(vol.ops) + added && old(vol.faults) <= vol.faults
              && vol.disk == Run(old(vol.disk), added)
    ensures ok ==> added == CopyOps(old(vol.disk), ContentOf(req.host, pair.source), pair.dest)
                   && AllCan(old(vol.disk), added)
    ensures !ok && vol.faults == old(vol.faults) && pair.source in req.host.files ==>
              !AllCan(old(vol.disk), CopyOps(old(vol.disk), ContentOf(req.host, pair.source), pair.dest))
    ensures InstallShapes(req, added)
  {
    assert pair in [pair];
    ghost var asset :| asset in item.entry.Assets() && Key(pair.dest) == Key(WantedDest(req, item, asset));
    var source := if pair.source in req.host.files then Some(req.host.files[pair.source]) else None;
    ok, added := CopyAtomicVfat(vol, source, pair.dest);
    CopyIsInstall(req, item, asset, pair.dest, added);
  }

  /** Every source can be read. */
  ghost predicate HaveSources(host: Host, pairs: seq<Pair>) {
    forall pair | pair in pairs :: pair.source in host.files
  }

  /** All copies can be carried out only if the first few can. */
  lemma {:induction false} CopiesNeed(host: Host, d: Disk, pairs: seq<Pair>, i: nat, n: nat)
    requires HaveDests(pairs) && i <= n <= |pairs| && AllCan(d, CopiesOps(host, d, pairs, n))
    ensures AllCan(d, CopiesOps(host, d, pairs, i))
    ensures i < |pairs| && i < n ==>
              AllCan(Run(d, CopiesOps(host, d, pairs, i)),
                     CopyOps(Run(d, CopiesOps(host, d, pairs, i)), ContentOf(host, pairs[i].source), pairs[i].dest))
  {
    hide Run, AllCan, CopyOps;
    if i < n {
      var before := CopiesOps(host, d, pairs, n - 1);
      RunConcat(d, before, CopyOps(Run(d, before), ContentOf(host, pairs[n - 1].source), pairs[n - 1].dest));
      CopiesNeed(host, d, pairs, i, n - 1);
    }
  }

  lemma CopiesStuck(host: Host, d: Disk, pairs: seq<Pair>, i: nat)
    requires HaveDests(pairs) && i < |pairs| && pairs[i].dest != []
    requires var e := Run(d, CopiesOps(host, d, pairs, i));
             !AllCan(e, CopyOps(e, ContentOf(host, pairs[i].source), pairs[i].dest))
    ensures !AllCan(d, CopiesOps(host, d, pairs, |pairs|))
  {
    hide Run, AllCan, CopyOps, CopiesOps;
    if AllCan(d, CopiesOps(host, d, pairs, |pairs|)) {
      CopiesNeed(host, d, pairs, i, |pairs|);
    }
  }

  lemma NoCopiesYet(host: Host, d: Disk, pairs: seq<Pair>)
    requires HaveDests(pairs)
    ensures CopiesOps(host, d, pairs, 0) == []
  {
  }

  lemma SourceThere(host: Host, pairs: seq<Pair>, i: nat)
    requires i < |pairs|
    ensures HaveSources(host, pairs) ==> pairs[i].source in host.files
  {
    assert pairs[i] in pairs;
  }

  lemma CopiesNext(host: Host, d: Disk, pairs: seq<Pair>, i: nat)
    requires HaveDests(pairs) && i < |pairs| && pairs[i].dest != []
    ensures var ops := CopiesOps(host, d, pairs, i);
            CopiesOps(host, d, pairs, i + 1)
              == ops + CopyOps(Run(d, ops), ContentOf(host, pairs[i].source), pairs[i].dest)
  {
    hide Run, CopyOps;
  }

  /** Copies the given pairs one after another, stopping at the first failure. */
  method CopyAll(vol: Volume, req: Request, ghost item: Item, pairs: seq<Pair>)
    returns (ok: bool, ghost added: seq<Op>)
    requires vol.Valid() && item in req.items && HaveDests(pairs) && PairsOf(req, item, pairs)
    modifies vol
    ensures vol.Valid() && vol.ops == old(vol.ops) + added && old(vol.faults) <= vol.faults
              && vol.disk == Run(old(vol.disk), added)
    ensures ok ==> added == CopiesOps(req.host, old(vol.disk), pairs, |pairs|) && AllCan(old(vol.disk), added)
    ensures !ok && vol.faults == old(vol.faults) && HaveSources(req.host, pairs) ==>
              !AllCan(old(vol.disk), CopiesOps(req.host, old(vol.disk), pairs, |pairs|))
    ensures InstallShapes(req, added)
  {
    hide Run, AllCan, CopyOps, CopiesOps, InstallShapes, HaveSources;
    RunNone(vol.disk);
    NoShapes(req);
    NoCopiesYet(req.host, vol.disk, pairs);
    ok, added := true, [];
    for i := 0 to |pairs|
      invariant vol.Valid() && vol.ops == old(vol.ops) + added && old(vol.faults) <= vol.faults
              && vol.disk == Run(old(vol.disk), added)
      invariant added == CopiesOps(req.host, old(vol.disk), pairs, i) && AllCan(old(vol.disk), added)
      invariant ok && InstallShapes(req, added)
    {
      assert pairs[i] in pairs;
      CopiesNext(req.host, old(vol.disk), pairs, i);
      SourceThere(req.host, pairs, i);
      ghost var more;
      ok, more := CopyOne(vol, req, item, pairs[i]);
      Chain(old(vol.ops), old(vol.disk), added, more);
      InstallShapesConcat(req, added, more);
      if !ok {
        if vol.faults == old(vol.faults) && HaveSources(req.host, pairs) {
          CopiesStuck(req.host, old(vol.disk), pairs, i);
        }
        added := added + more;
        return;
      }
      added := added + more;
    }
  }

  /** Where an asset goes: a name of one component is matched against what is there already. */
  method DestOf(vol: Volume, kernelDir: Path, name: Path) returns (dest: Path)
    requires vol.Valid()
    ensures dest == JoinAll(vol.disk, kernelDir, name)
  {
    if |name| == 1 {
      dest := vol.JoinInsensitive(kernelDir, name[0]);
    } else {
      dest := kernelDir + name;
    }
  }

  method KernelDirOf(vol: Volume, schema: Schema) returns (dir: Path)
    requires vol.Valid()
    ensures dir == NamespaceDir(vol.disk, schema.OsNamespace())
  {
    dir := vol.JoinInsensitive([], "EFI");
    dir := vol.JoinInsensitive(dir, schema.OsNamespace());
  }

  method EntriesDirOf(vol: Volume) returns (dir: Path)
    requires vol.Valid()
    ensures dir == EntriesDir(vol.disk)
  {
    dir := vol.JoinInsensitive([], "loader");
    dir := vol.JoinInsensitive(dir, "entries");
  }

  /** The source and the destination of every asset of an entry. */
  method BuildChangeset(vol: Volume, req: Request, item: Item, kernelDir: Path) returns (changeset: seq<Pair>)
    requires vol.Valid()
    requires kernelDir == NamespaceDir(vol.disk, EffectiveSchema(req, item).OsNamespace())
    ensures changeset == AssetPairs(req, vol.disk, item, item.entry.Assets())
  {
    var schema := EffectiveSchema(req, item);
    var sysroot := item.entry.inner.sysroot;
    var image := item.entry.image;
    var vmlinuz := DestOf(vol, kernelDir, image.InstalledName(schema, req.table));
    changeset := [Pair(JoinPath(sysroot, image.path), vmlinuz)];
    var initrds := item.entry.initrd;
    for i := 0 to |initrds|
      invariant |changeset| == i + 1 && changeset[0] == AssetPair(req, vol.disk, item, image)
      invariant forall j | 0 <= j < i :: changeset[j + 1] == AssetPair(req, vol.disk, item, initrds[j])
    {
      var dest := DestOf(vol, kernelDir, initrds[i].InstalledName(schema, req.table));
      changeset := changeset + [Pair(JoinPath(sysroot, initrds[i].path), dest)];
    }
  }

  lemma ChangesetPairs(req: Request, d: Disk, item: Item, picked: seq<bool>)
    requires Tree(d) && |picked| == |JobOf(req, d, item).changeset|
    ensures PairsOf(req, item, Select(JobOf(req, d, item).changeset, picked))
  {
    var changeset := JobOf(req, d, item).changeset;
    forall pair | pair in Select(changeset, picked)
      ensures pair.dest != [] && exists asset | asset in item.entry.Assets() ::
                                   Key(pair.dest) == Key(WantedDest(req, item, asset))
    {
      var i :| 0 <= i < |changeset| && changeset[i] == pair;
      AssetPairKey(req, d, item, item.entry.Assets()[i]);
    }
  }

  /** `install`: copy what differs, then write the configuration. */
  method Install(vol: Volume, req: Request, item: Item)
    returns (r: Option<InstallResult>, ghost picked: seq<bool>, ghost clean: bool, ghost added: seq<Op>)
    requires vol.Valid() && item in req.items
    modifies vol
    ensures vol.Valid() && vol.ops == old(vol.ops) + added && old(vol.faults) <= vol.faults
              && vol.disk == Run(old(vol.disk), added)
    ensures |picked| == |item.entry.Assets()|
    ensures var job := JobOf(req, old(vol.disk), item);
            && Justified(req.host, old(vol.disk), job.changeset, picked)
            && (clean ==> Exact(req.host, old(vol.disk), job.changeset, picked))
            && (r.Some? ==> added == InstallOps(req.host, old(vol.disk), job, picked)
                            && AllCan(old(vol.disk), added) && r.value == ResultOf(job))
            && (r.None? && vol.faults == old(vol.faults) && HaveSources(req.host, job.changeset) ==>
                  !AllCan(old(vol.disk), InstallOps(req.host, old(vol.disk), job, picked)))
    ensures InstallShapes(req, added)
  {
    ghost var d, job := vol.disk, JobOf(req, vol.disk, item);
    var schema := EffectiveSchema(req, item);
    var entriesDir := EntriesDirOf(vol);
    var loaderId := vol.JoinInsensitive(entriesDir, ConfName(req, item));
    var kernelDir := KernelDirOf(vol, schema);
    var changeset := BuildChangeset(vol, req, item, kernelDir);
    var needed;
    needed, picked, clean := ChangedFiles(req.host, vol.disk, changeset);
    ChangesetPairs(req, d, item, picked);
    ghost var copies := CopiesOps(req.host, d, needed, |needed|);
    RunConcat(d, copies, ConfOps(Run(d, copies), job));
    var ok;
    ok, added := CopyAll(vol, req, item, needed);
    if !ok {
      return None, picked, clean, added;
    }
    var text := GenerateEntry(schema, req.table, kernelDir, item.options, item.entry);
    ConfPathKey(req, d, item);
    ghost var more;
    ok, more := WriteConf(vol, req, item, job, loaderId, text);
    Chain(old(vol.ops), d, added, more);
    InstallShapesConcat(req, added, more);
    added := added + more;
    r := if ok then Some(InstallResult(loaderId, ParentOf(changeset[0].dest), Dests(changeset))) else None;
  }

  lemma EntriesShapes(req: Request, entriesDir: Path, ops: seq<Op>)
    requires Key(entriesDir) == Key(["loader", "entries"])
    requires forall op | op in ops :: op.MkDir? && op.path != [] && op.path <= entriesDir
    ensures InstallShapes(req, ops)
  {
    forall op | op in ops
      ensures InstallShape(req, op)
    {
      KeyTake(entriesDir, |op.path|);
      assert op.path == entriesDir[..|op.path|];
    }
  }

  lemma ConfNeeds(d: Disk, job: Job)
    ensures var dirs := if Exists(d, Key(EntriesDir(d))) then [] else MkDirs(EntriesDir(d));
            AllCan(d, ConfOps(d, job)) ==> AllCan(d, dirs) && Can(Run(d, dirs), Write(job.conf, job.text))
  {
    var dirs := if Exists(d, Key(EntriesDir(d))) then [] else MkDirs(EntriesDir(d));
    RunConcat(d, dirs, [Write(job.conf, job.text)]);
    RunOne(Run(d, dirs), Write(job.conf, job.text));
    hide MkDirs, EntriesDir, Run, AllCan;
  }

  /** The end of `install`: make sure of the directory and write the configuration. */
  method WriteConf(vol: Volume, req: Request, ghost item: Item, ghost job: Job, loaderId: Path, text: Content)
    returns (ok: bool, ghost added: seq<Op>)
    requires vol.Valid() && item in req.items
    requires loaderId == job.conf && text == job.text && Key(loaderId) == Key(WantedConf(req, item))
    modifies vol
    ensures vol.Valid() && vol.ops == old(vol.ops) + added && old(vol.faults) <= vol.faults
              && vol.disk == Run(old(vol.disk), added)
    ensures ok ==> added == ConfOps(old(vol.disk), job) && AllCan(old(vol.disk), added)
    ensures !ok && vol.faults == old(vol.faults) ==> !AllCan(old(vol.disk), ConfOps(old(vol.disk), job))
    ensures InstallShapes(req, added)
  {
    hide Apply, Can, Run, AllCan, MkDirs;
    RunNone(vol.disk);
    ConfNeeds(vol.disk, job);
    ok, added := true, [];
    var entriesDir := EntriesDirOf(vol);
    if !Exists(vol.disk, Key(entriesDir)) {
      EntriesKey(vol.disk);
      ok, added := CreateDirAll(vol, entriesDir);
      EntriesShapes(req, entriesDir, added);
    }
    if ok {
      ghost var more;
      ghost var e := vol.disk;
      ok, more := vol.Try(Write(loaderId, text));
      Chain(old(vol.ops), old(vol.disk), added, more);
      RunOne(e, Write(loaderId, text));
      added := added + more;
    }
  }

  // ---------------------------------------------------------------- cleaning up

  /** The names of a directory that carry one of our prefixes, as paths. */
  method FindLoaderFiles(vol: Volume, schema: Schema) returns (found: seq<Path>)
    requires vol.Valid()
    ensures forall p :: p in found <==> p in LoaderFiles(vol.disk, schema)
  {
    var dir := EntriesDirOf(vol);
    var names := vol.ReadDir(dir);
    found := [];
    for i := 0 to |names|
      invariant forall p :: p in found <==>
                  exists j | 0 <= j < i :: HasCleanedPrefix(schema, names[j]) && p == dir + [names[j]]
    {
      if HasCleanedPrefix(schema, names[i]) {
        found := found + [dir + [names[i]]];
      }
    }
    forall p
      ensures p in found <==> p in LoaderFiles(vol.disk, schema)
    {
      if p in LoaderFiles(vol.disk, schema) {
        var n :| n in Children(vol.disk, Key(dir)) && HasCleanedPrefix(schema, n) && p == dir + [n];
        assert n in names;
      }
      if p in found {
        var j :| 0 <= j < |names| && HasCleanedPrefix(schema, names[j]) && p == dir + [names[j]];
        assert names[j] in names;
      }
    }
  }

  /** The directories below one directory. */
  method SubDirs(vol: Volume, dir: Path) returns (found: seq<Path>)
    requires vol.Valid()
    ensures forall p :: p in found <==>
              exists n | n in Children(vol.disk, Key(dir)) :: IsDir(vol.disk, Key(dir + [n])) && p == dir + [n]
  {
    var names := vol.ReadDir(dir);
    found := [];
    for i := 0 to |names|
      invariant forall p :: p in found <==>
                  exists j | 0 <= j < i :: IsDir(vol.disk, Key(dir + [names[j]])) && p == dir + [names[j]]
    {
      if IsDir(vol.disk, Key(dir + [names[i]])) {
        found := found + [dir + [names[i]]];
      }
    }
    forall p
      ensures p in found <==>
              exists n | n in Children(vol.disk, Key(dir)) :: IsDir(vol.disk, Key(dir + [n])) && p == dir + [n]
    {
      if p in found {
        var j :| 0 <= j < |names| && IsDir(vol.disk, Key(dir + [names[j]])) && p == dir + [names[j]];
        assert names[j] in names;
      }
      if n :| n in Children(vol.disk, Key(dir)) && IsDir(vol.disk, Key(dir + [n])) && p == dir + [n] {
        assert n in names;
      }
    }
  }

  /** The regular files directly below a directory. */
  method PlainFiles(vol: Volume, dir: Path) returns (found: seq<Path>)
    requires vol.Valid()
    ensures forall p :: p in found <==> p in FilesBelow(vol.disk, dir)
  {
    var names := vol.ReadDir(dir);
    found := [];
    for i := 0 to |names|
      invariant forall p :: p in found <==>
                  exists j | 0 <= j < i :: IsFile(vol.disk, Key(dir + [names[j]])) && p == dir + [names[j]]
    {
      if IsFile(vol.disk, Key(dir + [names[i]])) {
        found := found + [dir + [names[i]]];
      }
    }
    forall p
      ensures p in found <==> p in FilesBelow(vol.disk, dir)
    {
      if p in found {
        var j :| 0 <= j < |names| && IsFile(vol.disk, Key(dir + [names[j]])) && p == dir + [names[j]];
        assert names[j] in names;
      }
      if p in FilesBelow(vol.disk, dir) {
        var n :| n in Children(vol.disk, Key(dir)) && IsFile(vol.disk, Key(dir + [n])) && p == dir + [n];
        assert n in names;
      }
    }
  }

  /** The kernel directories of all cleaned namespaces. */
  method FindKernelDirs(vol: Volume, schema: Schema) returns (kernelFiles: map<Path, seq<Path>>)
    requires vol.Valid()
    ensures kernelFiles.Keys == KernelDirs(vol.disk, schema)
  {
    hide JoinAt, Children, IsDir;
    var namespaces := schema.CleanedNamespaces();
    kernelFiles := map[];
    for i := 0 to |namespaces|
      invariant forall p :: p in kernelFiles <==> InNamespaces(vol.disk, namespaces[..i], p)
    {
      var efi := vol.JoinInsensitive([], "EFI");
      var nsDir := vol.JoinInsensitive(efi, namespaces[i]);
      var dirs := SubDirs(vol, nsDir);
      kernelFiles := kernelFiles + map p | p in dirs :: [];
      InNamespacesSnoc(vol.disk, namespaces, i);
    }
    assert namespaces[..|namespaces|] == namespaces;
    KernelDirsInNamespaces(vol.disk, schema);
  }

  lemma KernelDirsInNamespaces(d: Disk, schema: Schema)
    ensures forall p :: InNamespaces(d, schema.CleanedNamespaces(), p) <==> p in KernelDirs(d, schema)
  {
  }

  /** Each kernel directory with the files directly below it. */
  method FindKernelFiles(vol: Volume, schema: Schema) returns (kernelFiles: map<Path, seq<Path>>)
    requires vol.Valid()
    ensures kernelFiles.Keys == KernelDirs(vol.disk, schema)
    ensures forall dir | dir in kernelFiles :: forall p :: p in kernelFiles[dir] <==> p in FilesBelow(vol.disk, dir)
  {
    hide KernelDirs, FilesBelow;
    kernelFiles := FindKernelDirs(vol, schema);
    var todo := kernelFiles.Keys;
    while todo != {}
      invariant todo <= kernelFiles.Keys == KernelDirs(vol.disk, schema)
      invariant forall dir | dir in kernelFiles && dir !in todo ::
                  forall p :: p in kernelFiles[dir] <==> p in FilesBelow(vol.disk, dir)
      decreases todo
    {
      var dir :| dir in todo;
      var files := PlainFiles(vol, dir);
      kernelFiles := kernelFiles[dir := files];
      todo := todo - {dir};
    }
  }

  ghost predicate InNamespaces(d: Disk, namespaces: seq<string>, p: Path) {
    exists namespace | namespace in namespaces :: InNamespace(d, namespace, p)
  }

  ghost predicate InNamespace(d: Disk, namespace: string, p: Path) {
    exists n | n in Children(d, Key(NamespaceDir(d, namespace))) ::
      IsDir(d, Key(NamespaceDir(d, namespace) + [n])) && p == NamespaceDir(d, namespace) + [n]
  }

  lemma InNamespacesSnoc(d: Disk, namespaces: seq<string>, i: nat)
    requires i < |namespaces|
    ensures forall p :: InNamespaces(d, namespaces[..i + 1], p) <==>
              InNamespaces(d, namespaces[..i], p) || InNamespace(d, namespaces[i], p)
  {
    assert namespaces[..i + 1] == namespaces[..i] + [namespaces[i]];
  }

  /** `remove_file` on each path; a failure is logged and the rest go on. */
  method RemoveFiles(vol: Volume, paths: seq<Path>) returns (ghost removed: seq<Op>)
    requires vol.Valid()
    modifies vol
    ensures vol.Valid() && vol.ops == old(vol.ops) + removed && vol.disk == Run(old(vol.disk), removed)
    ensures forall op | op in removed :: op.Remove? && op.path in paths
    ensures old(vol.faults) <= vol.faults && AllCan(old(vol.disk), removed)
    ensures vol.faults == old(vol.faults) ==> forall p | p in paths :: !IsFile(vol.disk, Key(p))
  {
    hide Run, AllCan, Apply;
    RunNone(vol.disk);
    removed := [];
    for i := 0 to |paths|
      invariant vol.Valid() && vol.ops == old(vol.ops) + removed && vol.disk == Run(old(vol.disk), removed)
      invariant forall op | op in removed :: op.Remove? && op.path in paths
      invariant old(vol.faults) <= vol.faults && AllCan(old(vol.disk), removed)
      invariant vol.faults == old(vol.faults) ==> forall j | 0 <= j < i :: !IsFile(vol.disk, Key(paths[j]))
    {
      ghost var more;
      var ok;
      ghost var e := vol.disk;
      ok, more := vol.Try(Remove(paths[i]));
      Chain(old(vol.ops), old(vol.disk), removed, more);
      RunNone(e);
      RunOne(e, Remove(paths[i]));
      RemovalGone(e, Remove(paths[i]));
      removed := removed + more;
    }
  }

  lemma RemovalGone(d: Disk, op: Op)
    requires IsRemoval(op)
    ensures forall k | IsFile(Apply(d, op), k) :: IsFile(d, k)
    ensures forall k | k in Apply(d, op) :: k in d
    ensures op.Remove? ==> !IsFile(Apply(d, op), Key(op.path))
    ensures op.RemoveTree? && op.kept == {} && Can(d, op) ==> Key(op.path) !in Apply(d, op)
  {
  }

  /** `remove_dir_all` on each path; a failure is logged and the rest go on. */
  method RemoveTrees(vol: Volume, paths: seq<Path>) returns (ghost removed: seq<Op>)
    requires vol.Valid()
    modifies vol
    ensures vol.Valid() && vol.ops == old(vol.ops) + removed && vol.disk == Run(old(vol.disk), removed)
    ensures forall op | op in removed :: op.RemoveTree? && op.path in paths
    ensures old(vol.faults) <= vol.faults
    ensures vol.faults == old(vol.faults) ==> AllCan(old(vol.disk), removed)
    ensures vol.faults == old(vol.faults) ==> forall p | p in paths :: !IsDir(vol.disk, Key(p)) || p == []
  {
    hide Run, AllCan, Apply;
    RunNone(vol.disk);
    removed := [];
    for i := 0 to |paths|
      invariant vol.Valid() && vol.ops == old(vol.ops) + removed && vol.disk == Run(old(vol.disk), removed)
      invariant forall op | op in removed :: op.RemoveTree? && op.path in paths
      invariant old(vol.faults) <= vol.faults
      invariant vol.faults == old(vol.faults) ==> AllCan(old(vol.disk), removed)
      invariant vol.faults == old(vol.faults) ==>
                  forall j | 0 <= j < i :: !IsDir(vol.disk, Key(paths[j])) || paths[j] == []
    {
      ghost var more;
      var ok;
      ghost var e := vol.disk;
      ok, more := vol.Try(RemoveTree(paths[i], {}));
      Chain(old(vol.ops), old(vol.disk), removed, more);
      RunNone(e);
      RunOne(e, RemoveTree(paths[i], {}));
      TreeRemovalGone(e, paths[i]);
      removed := removed + more;
    }
  }

  lemma TreeRemovalGone(d: Disk, p: Path)
    ensures Can(d, RemoveTree(p, {})) <==> Key(p) in d && d[Key(p)].Dir?
    ensures forall k | IsDir(Apply(d, RemoveTree(p, {})), k) :: IsDir(d, k)
    ensures Key(p) !in Apply(d, RemoveTree(p, {})) || !Can(d, RemoveTree(p, {}))
  {
  }

  /** `cleanup_stale_entries`: work out what is stale, then remove configurations, trees and files. */
  method CleanupStaleEntries(vol: Volume, schema: Schema, results: seq<InstallResult>)
    returns (ghost confs: seq<Op>, ghost trees: seq<Op>, ghost files: seq<Op>)
    requires vol.Valid()
    modifies vol
    ensures vol.Valid() && vol.ops == old(vol.ops) + (confs + trees + files)
    ensures vol.disk == Run(old(vol.disk), confs + trees + files)
    ensures RemovesAmong(confs, StaleConfs(old(vol.disk), schema, results))
    ensures TreesAmong(trees, StaleTrees(old(vol.disk), schema, results))
    ensures RemovesAmong(files, StaleFiles(old(vol.disk), schema, results))
    ensures old(vol.faults) <= vol.faults
    ensures vol.faults == old(vol.faults) ==>
              AllCan(old(vol.disk), confs + trees + files) && Cleaned(old(vol.disk), vol.disk, schema, results)
  {
    ghost var d := vol.disk;
    var staleConfs, staleTrees, staleFiles := FindStale(vol, schema, results);
    confs := RemoveFiles(vol, staleConfs);
    ghost var e := vol.disk;
    trees := RemoveTrees(vol, staleTrees);
    ghost var f := vol.disk;
    files := RemoveFiles(vol, staleFiles);
    RemovedInTurn(old(vol.ops), d, confs, trees, files);
    StaleGone(d, e, f, vol.disk, schema, results, confs, trees, files);
  }

  lemma RemovedInTurn(log: seq<Op>, d: Disk, confs: seq<Op>, trees: seq<Op>, files: seq<Op>)
    ensures log + confs + trees + files == log + (confs + trees + files)
    ensures Run(Run(Run(d, confs), trees), files) == Run(d, confs + trees + files)
    ensures AllCan(d, confs + trees + files) <==>
              AllCan(d, confs) && AllCan(Run(d, confs), trees) && AllCan(Run(Run(d, confs), trees), files)
  {
    hide Run, AllCan;
    Chain(log, d, confs, trees);
    Chain(log, d, confs + trees, files);
  }

  /** What is gone after each of the three stages stays gone, and together nothing stale is left. */
  lemma StaleGone(d: Disk, e: Disk, f: Disk, g: Disk, schema: Schema, results: seq<InstallResult>,
                  confs: seq<Op>, trees: seq<Op>, files: seq<Op>)
    requires Tree(d) && e == Run(d, confs) && f == Run(e, trees) && g == Run(f, files)
    requires forall op | op in confs + trees + files :: IsRemoval(op)
    ensures (&& (forall p | p in StaleConfs(d, schema, results) :: !IsFile(e, Key(p)))
             && (forall p | p in StaleTrees(d, schema, results) :: !IsDir(f, Key(p)) || p == [])
             && (forall p | p in StaleFiles(d, schema, results) :: !IsFile(g, Key(p))))
            ==> Cleaned(d, g, schema, results)
  {
    hide Run, Children, StaleConfs, StaleTrees, StaleFiles;
    assert forall op | op in confs :: op in confs + trees + files;
    assert forall op | op in trees :: op in confs + trees + files;
    assert forall op | op in files :: op in confs + trees + files;
    forall k
      ensures k in g ==> k in f && g[k] == f[k]
      ensures k in f ==> k in e && f[k] == e[k]
      ensures k in e ==> k in d && e[k] == d[k]
    {
      RemovalsShrink(f, files, k);
      RemovalsShrink(e, trees, k);
      RemovalsShrink(d, confs, k);
    }
    StaleTreesAreDirs(d, schema, results);
    StaleFilesAreFiles(d, schema, results);
  }

  lemma StaleTreesAreDirs(d: Disk, schema: Schema, results: seq<InstallResult>)
    ensures forall p | p in StaleTrees(d, schema, results) :: p != [] && IsDir(d, Key(p))
  {
    hide JoinAt, Children;
  }

  lemma StaleFilesAreFiles(d: Disk, schema: Schema, results: seq<InstallResult>)
    ensures forall p | p in StaleFiles(d, schema, results) :: IsFile(d, Key(p))
  {
    hide KernelDirs, Children;
  }

  /** The three lists of what is to be removed. */
  method FindStale(vol: Volume, schema: Schema, results: seq<InstallResult>)
    returns (confs: seq<Path>, trees: seq<Path>, files: seq<Path>)
    requires vol.Valid()
    ensures forall p :: p in confs <==> p in StaleConfs(vol.disk, schema, results)
    ensures forall p :: p in trees <==> p in StaleTrees(vol.disk, schema, results)
    ensures forall p :: p in files <==> p in StaleFiles(vol.disk, schema, results)
  {
    hide LoaderFiles, KernelDirs, FilesBelow;
    var loaderFiles := FindLoaderFiles(vol, schema);
    var kernelFiles := FindKernelFiles(vol, schema);
    confs := [];
    for i := 0 to |loaderFiles|
      invariant forall p :: p in confs <==> p in loaderFiles[..i] && IsStaleConf(results, p)
    {
      assert loaderFiles[..i + 1] == loaderFiles[..i] + [loaderFiles[i]];
      if IsStaleConf(results, loaderFiles[i]) {
        confs := confs + [loaderFiles[i]];
      }
    }
    assert loaderFiles[..|loaderFiles|] == loaderFiles;
    trees, files := FindStaleBelow(vol.disk, schema, results, kernelFiles);
  }

  method FindStaleBelow(ghost d: Disk, schema: Schema, results: seq<InstallResult>, kernelFiles: map<Path, seq<Path>>)
    returns (trees: seq<Path>, files: seq<Path>)
    requires kernelFiles.Keys == KernelDirs(d, schema)
    requires forall dir | dir in kernelFiles :: forall p :: p in kernelFiles[dir] <==> p in FilesBelow(d, dir)
    ensures forall p :: p in trees <==> p in StaleTrees(d, schema, results)
    ensures forall p :: p in files <==> p in StaleFiles(d, schema, results)
  {
    hide KernelDirs, FilesBelow, IsStaleTree, IsStaleFile;
    trees, files := [], [];
    var todo := kernelFiles.Keys;
    while todo != {}
      invariant todo <= kernelFiles.Keys
      invariant forall p :: p in trees <==> p in kernelFiles && p !in todo && IsStaleTree(schema, results, p)
      invariant forall p :: p in files <==>
                  exists dir | dir in kernelFiles && dir !in todo && !IsStaleTree(schema, results, dir) ::
                    p in FilesBelow(d, dir) && IsStaleFile(results, p)
      decreases todo
    {
      var dir :| dir in todo;
      todo := todo - {dir};
      if IsStaleTree(schema, results, dir) {
        trees := trees + [dir];
      } else {
        var kept := KeepStale(results, kernelFiles[dir]);
        files := files + kept;
      }
    }
  }

  method KeepStale(results: seq<InstallResult>, candidates: seq<Path>) returns (stale: seq<Path>)
    ensures forall p :: p in stale <==> p in candidates && IsStaleFile(results, p)
  {
    stale := [];
    for i := 0 to |candidates|
      invariant forall p :: p in stale <==> p in candidates[..i] && IsStaleFile(results, p)
    {
      assert candidates[..i + 1] == candidates[..i] + [candidates[i]];
      if IsStaleFile(results, candidates[i]) {
        stale := stale + [candidates[i]];
      }
    }
    assert candidates[..|candidates|] == candidates;
  }

  // ---------------------------------------------------------------- the whole synchronisation

  function ItemsOf(host: Host, global: GlobalCmdline, hashed: seq<HashedEntry>): (r: seq<Item>)
    ensures |r| == |hashed|
    ensures forall i | 0 <= i < |hashed| :: r[i] == Item(hashed[i], FullCmdline(host, global, hashed[i].inner))
  {
    seq(|hashed|, i requires 0 <= i < |hashed| => Item(hashed[i], FullCmdline(host, global, hashed[i].inner)))
  }

  /** The request made of hashing these entries and tabulating their collisions. */
  ghost predicate IsRequest(req: Request, host: Host, schema: Schema, global: GlobalCmdline, entries: seq<Entry>) {
    && req.schema == schema && req.host == host
    && HashEntries(host, entries).Some?
    && req.items == ItemsOf(host, global, HashEntries(host, entries).value)
    && Tabulates(req.table, AllAssets(HashEntries(host, entries).value))
  }

  /** The first stage of `sync_entries`: hash every asset of every entry. */
  method HashAll(host: Host, entries: seq<Entry>) returns (r: Option<seq<HashedEntry>>, ghost errors: nat)
    ensures r.Some? ==> r == HashEntries(host, entries)
    ensures r.None? && errors == 0 ==> HashEntries(host, entries).None?
  {
    hide HashEntry;
    var hasher := new Hasher();
    var hashed := [];
    for i := 0 to |entries|
      invariant fresh(hasher) && hasher.fed == [] && HashEntries(host, entries[..i]) == Some(hashed)
    {
      assert entries[..i + 1][..i] == entries[..i];
      var entry := NewHashedEntry(host, hasher, entries[i]);
      if entry.None? {
        if HashEntry(host, entries[i]).None? {
          NoEntries(host, entries, i + 1);
        }
        return None, hasher.errors;
      }
      hashed := hashed + [entry.value];
    }
    assert entries[..|entries|] == entries;
    r, errors := Some(hashed), hasher.errors;
  }

  /** The first `i` entries are installed, as the plan says. */
  ghost predicate Progress(req: Request, d: Disk, picks: seq<seq<bool>>, i: nat, s: Stretch, clean: bool,
                           results: seq<InstallResult>)
  {
    && |picks| == i && PicksFit(req, picks, i)
    && Installs(req, d, picks, i) == s && AllCan(d, s.ops)
    && InstallsJustified(req, d, picks, i)
    && (clean ==> InstallsExact(req, d, picks, i))
    && results == InstallsResults(req, d, picks, i)
  }

  lemma ProgressStart(req: Request, d: Disk)
    ensures Progress(req, d, [], 0, Stretch([], d), true, [])
  {
    assert PicksFit(req, [], 0);
    assert InstallsResults(req, d, [], 0) == [];
  }

  lemma {:induction false} SameBefore(req: Request, d: Disk, picks: seq<seq<bool>>, picked: seq<bool>, j: nat)
    requires j <= |picks| && PicksFit(req, picks, |picks|)
    ensures PicksFit(req, picks + [picked], j)
    ensures Installs(req, d, picks + [picked], j) == Installs(req, d, picks, j)
  {
    PicksAgree(req, d, picks, picks + [picked], j);
  }

  lemma ProgressStep(req: Request, d: Disk, picks: seq<seq<bool>>, i: nat, s: Stretch, clean: bool,
                     results: seq<InstallResult>, picked: seq<bool>, exact: bool, more: seq<Op>)
    requires Progress(req, d, picks, i, s, clean, results)
    requires i < |req.items| && |picked| == |req.items[i].entry.Assets()|
    requires var job := JobOf(req, s.disk, req.items[i]);
             && Justified(req.host, s.disk, job.changeset, picked)
             && (exact ==> Exact(req.host, s.disk, job.changeset, picked))
             && more == InstallOps(req.host, s.disk, job, picked) && AllCan(s.disk, more)
    ensures Progress(req, d, picks + [picked], i + 1, Stretch(s.ops + more, Run(s.disk, more)), clean && exact,
                     results + [ResultOf(JobOf(req, s.disk, req.items[i]))])
  {
    hide JobOf, InstallOps, Justified, Exact, ResultOf, Run, AllCan, InstallsJustified, InstallsExact,
         InstallsResults;
    var all := picks + [picked];
    SameBefore(req, d, picks, picked, i);
    assert PicksFit(req, all, i + 1);
    NextStretch(req, d, picks, picked, i, s, more);
    StepJustified(req, d, picks, picked, i);
    StepResults(req, d, picks, picked, i);
    if clean && exact {
      StepExact(req, d, picks, picked, i);
    }
    InstallsRun(req, d, picks, i);
    RunConcat(d, s.ops, more);
  }

  lemma NextStretch(req: Request, d: Disk, picks: seq<seq<bool>>, picked: seq<bool>, i: nat, s: Stretch, more: seq<Op>)
    requires i < |req.items| && |picks| == i && PicksFit(req, picks, i) && PicksFit(req, picks + [picked], i + 1)
    requires Installs(req, d, picks, i) == s
    requires more == InstallOps(req.host, s.disk, JobOf(req, s.disk, req.items[i]), picked)
    ensures Installs(req, d, picks + [picked], i + 1) == Stretch(s.ops + more, Run(s.disk, more))
  {
    hide JobOf, InstallOps, Run;
    SameBefore(req, d, picks, picked, i);
    assert (picks + [picked])[i] == picked;
  }

  lemma StepJustified(req: Request, d: Disk, picks: seq<seq<bool>>, picked: seq<bool>, i: nat)
    requires i < |req.items| && |picks| == i && PicksFit(req, picks, i) && PicksFit(req, picks + [picked], i + 1)
    requires InstallsJustified(req, d, picks, i)
    requires Justified(req.host, DiskAfter(req, d, picks, i), JobAt(req, d, picks, i).changeset, picked)
    ensures InstallsJustified(req, d, picks + [picked], i + 1)
  {
    hide JobOf, Installs, Justified;
    forall j | 0 <= j <= i
      ensures Justified(req.host, DiskAfter(req, d, picks + [picked], j),
                        JobAt(req, d, picks + [picked], j).changeset, (picks + [picked])[j])
    {
      SameBefore(req, d, picks, picked, j);
    }
  }

  lemma StepExact(req: Request, d: Disk, picks: seq<seq<bool>>, picked: seq<bool>, i: nat)
    requires i < |req.items| && |picks| == i && PicksFit(req, picks, i) && PicksFit(req, picks + [picked], i + 1)
    requires InstallsExact(req, d, picks, i)
    requires Exact(req.host, DiskAfter(req, d, picks, i), JobAt(req, d, picks, i).changeset, picked)
    ensures InstallsExact(req, d, picks + [picked], i + 1)
  {
    hide JobOf, Installs, Exact;
    forall j | 0 <= j <= i
      ensures Exact(req.host, DiskAfter(req, d, picks + [picked], j),
                    JobAt(req, d, picks + [picked], j).changeset, (picks + [picked])[j])
    {
      SameBefore(req, d, picks, picked, j);
    }
  }

  lemma StepResults(req: Request, d: Disk, picks: seq<seq<bool>>, picked: seq<bool>, i: nat)
    requires i < |req.items| && |picks| == i && PicksFit(req, picks, i) && PicksFit(req, picks + [picked], i + 1)
    ensures InstallsResults(req, d, picks + [picked], i + 1)
         == InstallsResults(req, d, picks, i) + [ResultOf(JobAt(req, d, picks, i))]
  {
    hide JobOf, Installs, ResultOf;
    var all := picks + [picked];
    forall j | 0 <= j <= i
      ensures JobAt(req, d, all, j) == JobAt(req, d, picks, j)
    {
      SameBefore(req, d, picks, picked, j);
    }
  }

  /** The source of every asset can be read. */
  ghost predicate AllSources(req: Request) {
    forall item, asset | item in req.items && asset in item.entry.Assets() ::
      JoinPath(item.entry.inner.sysroot, asset.path) in req.host.files
  }

  /** Some operation of installing the entries chosen so far cannot be carried out. */
  ghost predicate Stuck(req: Request, d: Disk, picks: seq<seq<bool>>) {
    && 0 < |picks| <= |req.items| && PicksFit(req, picks, |picks|)
    && InstallsJustified(req, d, picks, |picks|)
    && !AllCan(d, Installs(req, d, picks, |picks|).ops)
  }

  lemma StuckHere(req: Request, d: Disk, picks: seq<seq<bool>>, s: Stretch, clean: bool,
                  results: seq<InstallResult>, picked: seq<bool>)
    requires Progress(req, d, picks, |picks|, s, clean, results)
    requires |picks| < |req.items| && |picked| == |req.items[|picks|].entry.Assets()|
    requires var job := JobOf(req, s.disk, req.items[|picks|]);
             && Justified(req.host, s.disk, job.changeset, picked)
             && !AllCan(s.disk, InstallOps(req.host, s.disk, job, picked))
    ensures Stuck(req, d, picks + [picked])
  {
    hide JobOf, InstallOps, Justified, Exact, ResultOf, Run, AllCan, InstallsJustified, InstallsExact,
         InstallsResults;
    var i, all := |picks|, picks + [picked];
    var more := InstallOps(req.host, s.disk, JobOf(req, s.disk, req.items[i]), picked);
    SameBefore(req, d, picks, picked, i);
    assert PicksFit(req, all, i + 1);
    NextStretch(req, d, picks, picked, i, s, more);
    StepJustified(req, d, picks, picked, i);
    InstallsRun(req, d, picks, i);
    RunConcat(d, s.ops, more);
  }

  lemma ProgressPicks(req: Request, d: Disk, picks: seq<seq<bool>>, i: nat, s: Stretch, clean: bool,
                      results: seq<InstallResult>)
    requires Progress(req, d, picks, i, s, clean, results)
    ensures |picks| == i
  {
  }

  lemma JobSources(req: Request, d: Disk, item: Item)
    requires AllSources(req) && item in req.items
    ensures HaveSources(req.host, JobOf(req, d, item).changeset)
  {
    hide GenerateEntry, JoinPath;
    var changeset, assets := JobOf(req, d, item).changeset, item.entry.Assets();
    forall pair | pair in changeset
      ensures pair.source in req.host.files
    {
      var i :| 0 <= i < |changeset| && changeset[i] == pair;
      assert changeset[i] == AssetPair(req, d, item, assets[i]) && assets[i] in assets;
    }
  }

  /** The second stage: install the entries in order, stopping at the first failure. */
  method InstallAll(vol: Volume, req: Request, global: GlobalCmdline)
    returns (r: Option<seq<InstallResult>>, ghost picks: seq<seq<bool>>, ghost clean: bool, ghost added: seq<Op>)
    requires vol.Valid()
    requires forall item | item in req.items :: item.options == FullCmdline(req.host, global, item.entry.inner)
    modifies vol
    ensures vol.Valid() && vol.ops == old(vol.ops) + added && old(vol.faults) <= vol.faults
              && vol.disk == Run(old(vol.disk), added)
    ensures InstallShapes(req, added)
    ensures r.Some? ==>
              Progress(req, old(vol.disk), picks, |req.items|, Stretch(added, vol.disk), clean, r.value)
    ensures r.None? && vol.faults == old(vol.faults) && AllSources(req) ==> Stuck(req, old(vol.disk), picks)
  {
    hide HaveSources, AllSources, Stuck, JobOf, InstallOps, Justified, Exact, FullCmdline, InstallShapes, ResultOf,
         Run, AllCan, Progress;
    ghost var d := vol.disk;
    RunNone(d);
    ProgressStart(req, d);
    NoShapes(req);
    var results := [];
    picks, clean, added := [], true, [];
    for i := 0 to |req.items|
      invariant vol.Valid() && vol.ops == old(vol.ops) + added && old(vol.faults) <= vol.faults
              && vol.disk == Run(d, added)
      invariant InstallShapes(req, added)
      invariant Progress(req, d, picks, i, Stretch(added, vol.disk), clean, results)
    {
      var item := req.items[i];
      var options := MergeCmdline(req.host, global, item.entry.inner);
      assert Item(item.entry, options) == item;
      ghost var more, picked, exact;
      ghost var e := vol.disk;
      var installed;
      installed, picked, exact, more := Install(vol, req, item);
      Chain(old(vol.ops), d, added, more);
      InstallShapesConcat(req, added, more);
      if installed.None? {
        if vol.faults == old(vol.faults) && AllSources(req) {
          JobSources(req, e, item);
          ProgressPicks(req, d, picks, i, Stretch(added, e), clean, results);
          StuckHere(req, d, picks, Stretch(added, e), clean, results, picked);
        }
        added := added + more;
        return None, picks + [picked], clean, added;
      }
      ProgressStep(req, d, picks, i, Stretch(added, e), clean, results, picked, exact, more);
      results := results + [installed.value];
      picks, clean, added := picks + [picked], clean && exact, added + more;
    }
    r := Some(results);
  }

  lemma NoShapes(req: Request)
    ensures InstallShapes(req, [])
  {
  }

  /**
   `sync_entries`.  A failure while hashing changes nothing, and without read errors means that something
   cannot be hashed; a failure while installing leaves everything but destinations, staging files,
   configurations of the entries and created directories as it was, and on a sound medium means that some
   operation was impossible; and a run that ends well on a sound medium is a complete run.
   */
  method SyncEntries(vol: Volume, host: Host, schema: Schema, global: GlobalCmdline, entries: seq<Entry>)
    returns (r: Result<(), Failure>, ghost req: Request, ghost run: SyncRun, ghost clean: bool,
             ghost errors: nat, ghost added: seq<Op>)
    requires vol.Valid()
    modifies vol
    ensures vol.Valid() && vol.ops == old(vol.ops) + added && old(vol.faults) <= vol.faults
              && vol.disk == Run(old(vol.disk), added)
    ensures r == Err(HashingFailed) ==>
              added == [] && vol.disk == old(vol.disk) && (errors == 0 ==> HashEntries(host, entries).None?)
    ensures r == Err(InstallFailed) ==>
              && IsRequest(req, host, schema, global, entries) && InstallShapes(req, added)
              && (vol.faults == old(vol.faults) && AllSources(req) ==> Stuck(req, old(vol.disk), run.picks))
    ensures r.Ok? ==> IsRequest(req, host, schema, global, entries) && FinishedRun(req, old(vol.disk), run, added)
    ensures r.Ok? && vol.faults == old(vol.faults) ==> CompleteRun(req, old(vol.disk), run)
    ensures r.Ok? && clean ==> InstallsExact(req, old(vol.disk), run.picks, |req.items|)
  {
    hide Run, AllCan, Progress, InstallShapes, IsRequest, FinishedRun, CompleteRun, InstallsExact, RemovesAmong,
         TreesAmong, Cleaned, StaleConfs, StaleTrees, StaleFiles;
    ghost var d := vol.disk;
    RunNone(d);
    run, clean, added := SyncRun([], [], [], []), true, [];
    req := Request(schema, map[], host, []);
    var hashed;
    hashed, errors := HashAll(host, entries);
    if hashed.None? {
      return Err(HashingFailed), req, run, clean, errors, added;
    }
    var request := BuildRequest(host, schema, global, entries, hashed.value);
    req := request;
    var installed;
    ghost var picks;
    installed, picks, clean, added := InstallAll(vol, request, global);
    if installed.None? {
      return Err(InstallFailed), req, SyncRun(picks, [], [], []), clean, errors, added;
    }
    ghost var faults, s := vol.faults, Stretch(added, vol.disk);
    ghost var confs, trees, files := CleanupStaleEntries(vol, schema, installed.value);
    run := SyncRun(picks, confs, trees, files);
    Chain(old(vol.ops), d, added, CleanupOps(run));
    added := added + CleanupOps(run);
    RunFinished(req, d, run, s, clean, installed.value);
    r := Ok(());
  }

  /** Tabulate the collisions and put the request together. */
  method BuildRequest(host: Host, schema: Schema, global: GlobalCmdline, entries: seq<Entry>, hashed: seq<HashedEntry>)
    returns (req: Request)
    requires HashEntries(host, entries) == Some(hashed)
    ensures IsRequest(req, host, schema, global, entries)
    ensures forall item | item in req.items :: item.options == FullCmdline(req.host, global, item.entry.inner)
    ensures req.schema == schema
  {
    hide HashEntries, Tabulates, AllAssets, FullCmdline;
    var collisions := new AssetCollisions.FromEntries(hashed);
    req := Request(schema, collisions.table, host, ItemsOf(host, global, hashed));
  }

  /** The operations of a run that came to its end, whether or not removals failed. */
  ghost predicate FinishedRun(req: Request, d: Disk, run: SyncRun, ops: seq<Op>) {
    && Fits(req, run) && ops == SyncOps(req, d, run)
    && InstallShapes(req, InstallPhase(req, d, run).ops)
    && RemovesStale(InstallPhase(req, d, run).disk, req.schema, Results(req, d, run), run)
  }

  lemma RunFinished(req: Request, d: Disk, run: SyncRun, s: Stretch, clean: bool, results: seq<InstallResult>)
    requires Progress(req, d, run.picks, |req.items|, s, clean, results)
    requires InstallShapes(req, s.ops) && RemovesStale(s.disk, req.schema, results, run)
    ensures FinishedRun(req, d, run, s.ops + CleanupOps(run))
    ensures AllCan(s.disk, CleanupOps(run)) && Cleaned(s.disk, Run(s.disk, CleanupOps(run)), req.schema, results)
            ==> CompleteRun(req, d, run)
    ensures Fits(req, run) && (clean ==> InstallsExact(req, d, run.picks, |req.items|))
  {
    hide Installs, InstallsResults, InstallsJustified, InstallsExact, RemovesAmong, TreesAmong, InstallShapes,
         Cleaned, Run, AllCan;
  }
}
