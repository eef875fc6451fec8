/** Where entries put their files, and what a run leaves of others, told by the fields of schemas and entries. */
module Layout {
  import opened Text
  import opened Fat
  import opened Volumes
  import opened Compare
  import opened Cmdlines
  import opened Entries
  import opened Assets
  import opened Conf
  import opened SyncPlan
  import opened Loaders
  import opened Frame
  import opened Wanted
  import opened Convergence
  import opened Outcome
  import opened Effects
  import opened Scaffold
  import opened Turns
  import opened Exactness
  import opened ConfRefs
  import opened Removal

  // ---------------------------------------------------------------- which schema, which names

  /** The schema an entry follows: its own, or else that of the synchroniser. */
  predicate Follows(req: Request, item: Item, schema: Schema) {
    var own := item.entry.inner.schema;
    own == Some(schema) || (own == None && req.schema == schema)
  }

  /** What a schema calls the directory of its kernels, and what its identifiers start with. */
  predicate IsCalled(schema: Schema, namespace: string, id: string) {
    match schema
    case Legacy(release, ns) => namespace == ns && id == release.name
    case Blsforme(release) => namespace == release.id && id == release.id
    case OsInfoBased(info) => namespace == info.id && id == info.id
  }

  lemma FollowedSchema(req: Request, item: Item, schema: Schema)
    requires Follows(req, item, schema)
    ensures EffectiveSchema(req, item) == schema
  {
  }

  /** The configuration of an entry is called by identifier, version and state. */
  lemma ConfCalled(req: Request, item: Item, schema: Schema, namespace: string, id: string)
    requires Follows(req, item, schema) && IsCalled(schema, namespace, id)
    ensures var version, state := item.entry.inner.kernel.version, item.entry.inner.stateId;
            && (state == None ==> WantedConf(req, item) == ["loader", "entries", id + "-" + version + ".conf"])
            && (state.Some? ==>
                  WantedConf(req, item)
                    == ["loader", "entries", id + "-" + version + "-" + Signed(state.value) + ".conf"])
  {
    hide Signed;
    var version, state := item.entry.inner.kernel.version, item.entry.inner.stateId;
    FollowedSchema(req, item, schema);
    assert (id + "-") + (version + "") == id + "-" + version;
    if state.Some? {
      assert (id + "-") + (version + ("-" + Signed(state.value))) == id + "-" + version + "-" + Signed(state.value);
    }
  }

  /** Some asset of the request has the same place and name, but another content. */
  ghost predicate Collides(req: Request, asset: HashedAsset) {
    exists item, other | item in req.items && other in item.entry.Assets() ::
      && other.kind.SharedInitrd? == asset.kind.SharedInitrd? && other.fileName == asset.fileName
      && (asset.kind.SharedInitrd? || other.kernelVersion == asset.kernelVersion)
      && other.hash.content != asset.hash.content
  }

  lemma {:induction false} AssetOf(entries: seq<HashedEntry>, asset: HashedAsset) returns (i: nat)
    requires asset in AllAssets(entries)
    ensures i < |entries| && asset in entries[i].Assets()
  {
    i := |entries| - 1;
    if asset !in Last(entries).Assets() {
      i := AssetOf(entries[..|entries| - 1], asset);
    }
  }

  /** An asset gets an index exactly when it collides. */
  lemma IndexedIfCollides(req: Request, item: Item, asset: HashedAsset)
    requires Genuine(req) && item in req.items && asset in item.entry.Assets()
    ensures ConflictIndex(req.table, asset).Some? <==> Collides(req, asset)
  {
    hide Tabulates, ConflictIndex, IsGenuine, AllAssets, HashedEntry.Assets;
    var assets := AllAssets(EntriesOf(req));
    RequestAssets(req, item, asset);
    IndexedWhenConflicting(assets, req.table, asset);
    if Collides(req, asset) {
      var at, other :| at in req.items && other in at.entry.Assets() && other.Key() == asset.Key()
        && other.hash.content != asset.hash.content;
      RequestAssets(req, at, other);
    }
    if a, b :| a in assets && b in assets
               && a.Key() == asset.Key() && b.Key() == asset.Key() && a.hash != b.hash {
      var other := if a.hash == asset.hash then b else a;
      var i := AssetOf(EntriesOf(req), other);
      CollidesWith(req, asset, req.items[i], other);
    }
  }

  lemma CollidesWith(req: Request, asset: HashedAsset, at: Item, other: HashedAsset)
    requires at in req.items && other in at.entry.Assets() && other.Key() == asset.Key() && other.hash != asset.hash
    ensures Collides(req, asset)
  {
    hide HashedEntry.Assets;
    assert other.hash.content != asset.hash.content;
  }

  /** An asset goes to the directory of its version, or that of shared files, in the namespace of its entry's schema. */
  lemma DestCalled(req: Request, item: Item, asset: HashedAsset, schema: Schema, namespace: string, id: string)
    requires Follows(req, item, schema) && IsCalled(schema, namespace, id)
    requires Genuine(req) && item in req.items && asset in item.entry.Assets()
    ensures var dest := WantedDest(req, item, asset);
            var leaf := PlainLeaf(asset);
            && (schema.Legacy? ==>
                  dest == ["EFI", namespace, if asset.kind.Image? then "kernel-" + asset.fileName else asset.fileName])
            && (!schema.Legacy? ==>
                  && |dest| == 4 && dest[..2] == ["EFI", namespace]
                  && dest[2] == (if asset.kind.SharedInitrd? then "shared" else asset.kernelVersion)
                  && (!Collides(req, asset) ==> dest[3] == leaf)
                  && (Collides(req, asset) ==> exists i: nat :: dest[3] == leaf + "." + Decimal(i)))
  {
    FollowedSchema(req, item, schema);
    IndexedIfCollides(req, item, asset);
    NameOfAsset(asset, schema, req.table);
    SuffixedLeaf(PlainLeaf(asset), ConflictIndex(req.table, asset));
    hide Collides, Genuine, ConflictIndex, ConflictSuffix, Decimal, EffectiveSchema, HashedAsset.InstalledName,
         PlainLeaf;
  }

  lemma SuffixedLeaf(leaf: string, index: Option<nat>)
    ensures index == None ==> leaf + ConflictSuffix(index) == leaf
    ensures index.Some? ==> exists i: nat :: leaf + ConflictSuffix(index) == leaf + "." + Decimal(i)
  {
    hide Decimal;
    if index.Some? {
      assert leaf + ("." + Decimal(index.value)) == leaf + "." + Decimal(index.value);
    }
  }

  /**
   The destination as the volume spells it: the name of a legacy asset is matched against what is there, under other
   schemas only the namespace is.
   */
  lemma DestSpelled(req: Request, d: Disk, item: Item, asset: HashedAsset, schema: Schema, namespace: string,
                    id: string)
    requires Tree(d) && Follows(req, item, schema) && IsCalled(schema, namespace, id)
    ensures var dest, wanted := AssetPair(req, d, item, asset).dest, WantedDest(req, item, asset);
            && |wanted| >= 2 && wanted[..2] == ["EFI", namespace]
            && (schema.Legacy? ==> dest == OnDisk(d, wanted))
            && (!schema.Legacy? ==> dest == OnDisk(d, ["EFI", namespace]) + wanted[2..])
  {
    FollowedSchema(req, item, schema);
    NameOfAsset(asset, schema, req.table);
    NamespaceOnDisk(d, namespace);
    var name := asset.InstalledName(schema, req.table);
    hide HashedAsset.InstalledName, NamespaceDir, OnDisk, JoinAt, ConflictSuffix, PlainLeaf, Tree;
    assert (["EFI", namespace] + name)[2..] == name;
    if schema.Legacy? {
      JoinOnDisk(d, ["EFI", namespace], name[0]);
      assert ["EFI", namespace] + name == ["EFI", namespace] + [name[0]];
    }
  }

  /** What a schema shows in titles: the display name, or else the name. */
  predicate IsShown(schema: Schema, name: string) {
    match schema
    case OsInfoBased(info) => name == info.display
    case Blsforme(release) => release.prettyName == Some(name) || (release.prettyName == None && name == release.name)
    case Legacy(release, _) => release.prettyName == Some(name) || (release.prettyName == None && name == release.name)
  }

  lemma TitleShown(schema: Schema, version: string, name: string)
    requires IsShown(schema, name)
    ensures Title(schema, version) == name + " (" + version + ")"
  {
    assert name + (" (" + version + ")") == name + " (" + version + ")";
  }

  // ---------------------------------------------------------------- what is there after a run

  /** The assets of an entry are where its schema says, with the contents of the files they are made of. */
  lemma AssetsArePlaced(req: Request, d: Disk, run: SyncRun, item: Item, schema: Schema, namespace: string, id: string,
                        asset: HashedAsset)
    requires Keeps(req, d) && CompleteRun(req, d, run) && item in req.items && asset in item.entry.Assets()
    requires Follows(req, item, schema) && IsCalled(schema, namespace, id)
    ensures var leaf, dir := PlainLeaf(asset), if asset.kind.SharedInitrd? then "shared" else asset.kernelVersion;
            && (!Collides(req, asset) ==>
                  Holds(Final(req, d, run), Key(["EFI", namespace, dir, leaf]), asset.hash.content))
            && (Collides(req, asset) ==>
                  exists i: nat :: Holds(Final(req, d, run), Key(["EFI", namespace, dir, leaf + "." + Decimal(i)]),
                                         asset.hash.content))
  {
    hide Tree, Modern, Genuine, Agrees, AllKept, CompleteRun, Final, WantedDest, Collides, Holds, PlainLeaf,
         EffectiveSchema, Decimal, ContentFor;
    AssetThere(req, d, run, item, asset);
    ContentHashed(req, item, asset);
    var dest, leaf := WantedDest(req, item, asset), PlainLeaf(asset);
    DestAtLeaf(req, item, asset, schema, namespace, id);
    if Collides(req, asset) {
      var i: nat :| dest[3] == leaf + "." + Decimal(i);
      assert Holds(Final(req, d, run), Key(dest), asset.hash.content);
    }
  }

  lemma ContentHashed(req: Request, item: Item, asset: HashedAsset)
    requires Genuine(req) && item in req.items && asset in item.entry.Assets()
    ensures ContentFor(req, item, asset) == asset.hash.content
  {
    assert IsGenuine(req, item, asset);
  }

  lemma DestAtLeaf(req: Request, item: Item, asset: HashedAsset, schema: Schema, namespace: string, id: string)
    requires Modern(req) && Genuine(req) && item in req.items && asset in item.entry.Assets()
    requires Follows(req, item, schema) && IsCalled(schema, namespace, id)
    ensures |WantedDest(req, item, asset)| == 4
    ensures var dest, leaf := WantedDest(req, item, asset), PlainLeaf(asset);
            && dest == ["EFI", namespace, if asset.kind.SharedInitrd? then "shared" else asset.kernelVersion, dest[3]]
            && (!Collides(req, asset) ==> dest[3] == leaf)
            && (Collides(req, asset) ==> exists i: nat :: dest[3] == leaf + "." + Decimal(i))
  {
    FollowedSchema(req, item, schema);
    ModernItem(req, item);
    hide Modern, Genuine, WantedDest, Collides, PlainLeaf, EffectiveSchema, Decimal;
    DestCalled(req, item, asset, schema, namespace, id);
    var dest := WantedDest(req, item, asset);
    assert dest == dest[..2] + [dest[2], dest[3]];
  }

  /** The configuration of an entry is called and titled as its schema says. */
  lemma ConfIsPlaced(req: Request, d: Disk, run: SyncRun, item: Item, schema: Schema, namespace: string, id: string,
                     name: string)
    requires Keeps(req, d) && CompleteRun(req, d, run) && Printable(req) && item in req.items
    requires Follows(req, item, schema) && IsCalled(schema, namespace, id) && IsShown(schema, name)
    ensures var version, state := item.entry.inner.kernel.version, item.entry.inner.stateId;
            var k := Key(["loader", "entries",
                          if state == None then id + "-" + version + ".conf"
                          else id + "-" + version + "-" + Signed(state.value) + ".conf"]);
            && IsFile(Final(req, d, run), k)
            && var lines := Split(Final(req, d, run)[k].content, '\n');
               && Values(lines, "title") == [name + " (" + version + ")"]
               && Values(lines, "options") == [item.options]
  {
    hide Tree, Modern, Genuine, Agrees, AllKept, CompleteRun, Final, WantedConf, Printable, Split, Values, JobOf,
         Prepared, SameScaffold, Installs, Title, IsShown, Decimal;
    FollowedSchema(req, item, schema);
    ConfCalled(req, item, schema, namespace, id);
    TitleShown(schema, item.entry.inner.kernel.version, name);
    PreparedIsTree(req, d, run);
    JobReadsBack(req, Prepared(req, d), item);
    ConfThere(req, d, run, item);
  }

  /** A path read from a configuration is that of a file that has the content of a file of the system. */
  predicate NamesFile(host: Host, sysroot: Path, f: Disk, value: string, path: Path) {
    && path != []
    && (path[0] == "/" ==> path in host.files && Holds(f, ReferenceKey(value), host.files[path]))
    && (path[0] != "/" ==>
          sysroot + path in host.files && Holds(f, ReferenceKey(value), host.files[sysroot + path]))
  }

  /** A configuration names the image of an entry, and the initrds at the positions, in order. */
  ghost predicate NamesKernel(host: Host, entry: Entry, f: Disk, text: Content, at: seq<nat>) {
    var lines := Split(text, '\n');
    var linux, initrds := Values(lines, "linux"), Values(lines, "initrd");
    && |linux| == 1 && NamesFile(host, entry.sysroot, f, linux[0], entry.kernel.image)
    && |initrds| == |at|
    && forall j | 0 <= j < |at| ::
         at[j] < |entry.kernel.initrd| && NamesFile(host, entry.sysroot, f, initrds[j], entry.kernel.initrd[at[j]].path)
  }

  lemma ItemHashed(req: Request, host: Host, schema: Schema, global: GlobalCmdline, entries: seq<Entry>, item: Item)
    requires IsRequest(req, host, schema, global, entries) && item in req.items
    ensures req.host == host && item.entry.inner in entries && HashEntry(host, item.entry.inner) == Some(item.entry)
  {
    hide HashEntry, HashEntries, FullCmdline, Tabulates;
    RequestIsGenuine(req, host, schema, global, entries);
    var i :| 0 <= i < |req.items| && req.items[i] == item;
    HashedAt(host, entries, i);
  }

  lemma SourceIsRead(host: Host, item: Item, asset: HashedAsset, path: Path, f: Disk, value: string)
    requires IsMadeOf(host, item.entry.inner, asset, path)
    requires Holds(f, ReferenceKey(value), ContentOf(host, SourceOf(item, asset)))
    ensures NamesFile(host, item.entry.inner.sysroot, f, value, path)
  {
    hide ReferenceKey, Holds;
  }

  /**
   After a synchronisation of some entries, the configuration of each names, in order, a file for every versioned and
   every shared initrd of its kernel, and an image, with the contents these have on the system.
   */
  lemma ConfNamesKernel(req: Request, host: Host, schema: Schema, global: GlobalCmdline, entries: seq<Entry>,
                        d: Disk, run: SyncRun, item: Item)
    returns (at: seq<nat>)
    requires IsRequest(req, host, schema, global, entries) && item in req.items
    requires Keeps(req, d) && CompleteRun(req, d, run) && Printable(req)
    ensures item.entry.inner in entries && AreInitrds(at, item.entry.inner.kernel.initrd)
    ensures var f, k := Final(req, d, run), Key(WantedConf(req, item));
            IsFile(f, k) && NamesKernel(host, item.entry.inner, f, f[k].content, at)
  {
    hide Keeps, CompleteRun, Final, Printable, IsRequest, Split, Values, ReferenceKey, WantedConf, IsMadeOf, Holds,
         SourceOf, NamesFile, HashEntry, AreInitrds, ContentOf;
    ItemHashed(req, host, schema, global, entries, item);
    at := EntryHashed(host, item.entry.inner, item.entry);
    ConfNamesSources(req, d, run, item);
    var f, k := Final(req, d, run), Key(WantedConf(req, item));
    var lines := Split(f[k].content, '\n');
    var linux, initrds := Values(lines, "linux"), Values(lines, "initrd");
    SourceIsRead(host, item, item.entry.image, item.entry.inner.kernel.image, f, linux[0]);
    forall j | 0 <= j < |at|
      ensures at[j] < |item.entry.inner.kernel.initrd|
      ensures NamesFile(host, item.entry.inner.sysroot, f, initrds[j], item.entry.inner.kernel.initrd[at[j]].path)
    {
      SourceIsRead(host, item, item.entry.initrd[j], item.entry.inner.kernel.initrd[at[j]].path, f, initrds[j]);
    }
  }

  // ---------------------------------------------------------------- whose files are removed

  /** The namespaces a schema stands for, its own and those of its former identities. */
  predicate IsOurNamespace(schema: Schema, name: string) {
    match schema
    case Legacy(_, ns) => name == ns
    case Blsforme(release) => name == release.id
    case OsInfoBased(info) => name == info.id || name in info.formerIds
  }

  predicate IsOurPrefix(schema: Schema, name: string) {
    match schema
    case Legacy(release, _) => name == release.name
    case Blsforme(release) => name == release.id
    case OsInfoBased(info) => name == info.id || name in info.formerIds
  }

  /** The name of a configuration that belongs to one of our identities. */
  ghost predicate IsOurConf(schema: Schema, name: string) {
    exists id, rest: string :: IsOurPrefix(schema, id) && name == id + rest
  }

  /** The directory of shared files, or that of the kernel of an entry, as the volume calls it. */
  ghost predicate IsInUse(req: Request, d: Disk, q: Path) {
    q in d && |q| == 3
    && (d[q].name == "shared"
        || exists item, schema, namespace, id | item in req.items ::
             && Follows(req, item, schema) && IsCalled(schema, namespace, id)
             && q[..2] == Key(["EFI", namespace]) && d[q].name == item.entry.inner.kernel.version)
  }

  lemma KeptDirIs(req: Request, d: Disk, k: Path)
    requires |k| > 4 && k[..3] in d
    ensures IsStaleDir(req, d, k[..3]) <==> IsCleaned(req, k) && !IsInUse(req, d, k[..3])
  {
    hide EffectiveSchema;
    var q := k[..3];
    assert q[..2] == k[..2];
    forall item | item in req.items
      ensures IsKernelDir(req, item, q, d[q].name) <==>
                exists schema, namespace, id ::
                  && Follows(req, item, schema) && IsCalled(schema, namespace, id)
                  && q[..2] == Key(["EFI", namespace]) && d[q].name == item.entry.inner.kernel.version
    {
      DirOfKernel(req, item, q, d[q].name);
    }
    hide Follows, IsCalled, IsKernelDir, IsCleaned;
  }

  lemma DirOfKernel(req: Request, item: Item, q: Path, name: string)
    requires |q| == 3
    ensures IsKernelDir(req, item, q, name) <==>
              exists schema, namespace, id ::
                && Follows(req, item, schema) && IsCalled(schema, namespace, id)
                && q[..2] == Key(["EFI", namespace]) && name == item.entry.inner.kernel.version
  {
    var schema := EffectiveSchema(req, item);
    assert Follows(req, item, schema) && IsCalled(schema, schema.OsNamespace(), schema.IdPrefix());
    if s, namespace, id :| Follows(req, item, s) && IsCalled(s, namespace, id)
                           && q[..2] == Key(["EFI", namespace]) && name == item.entry.inner.kernel.version {
      FollowedSchema(req, item, s);
    }
  }

  /** A path below one of our namespaces. */
  ghost predicate IsOurs(schema: Schema, k: Path) {
    |k| >= 2 && exists namespace :: IsOurNamespace(schema, namespace) && k[..2] == Key(["EFI", namespace])
  }

  lemma CleanedIsOurs(req: Request, k: Path)
    ensures IsCleaned(req, k) <==> IsOurs(req.schema, k)
  {
    forall namespace
      ensures namespace in req.schema.CleanedNamespaces() <==> IsOurNamespace(req.schema, namespace)
    {
    }
  }

  lemma PrefixIsOurs(schema: Schema, name: string)
    ensures HasCleanedPrefix(schema, name) <==> IsOurConf(schema, name)
  {
    forall id
      ensures id in schema.CleanedPrefixes() <==> IsOurPrefix(schema, id)
    {
    }
    if HasCleanedPrefix(schema, name) {
      var id :| id in schema.CleanedPrefixes() && StartsWith(name, id);
      assert name == id + name[|id|..];
    }
  }

  /** A loader configuration that belongs to one of our identities. */
  ghost predicate IsOurEntry(schema: Schema, d: Disk, k: Path) {
    k in d && |k| == 3 && k[..2] == Key(["loader", "entries"]) && IsOurConf(schema, d[k].name)
  }

  lemma ConfAreaIsOurs(req: Request, d: Disk, k: Path)
    ensures InConfArea(req, d, k) <==> IsOurEntry(req.schema, d, k)
  {
    hide HasCleanedPrefix, IsOurConf;
    if k in d {
      PrefixIsOurs(req.schema, d[k].name);
    }
  }

  /**
   After every complete run, whatever volume it started from, a configuration that belongs to one of our identities, and
   a file directly inside a directory of one of our namespaces, is one that the request asks for.
   */
  lemma NothingElseIsOurs(req: Request, d: Disk, run: SyncRun, k: Path)
    requires Tree(d) && Modern(req) && CompleteRun(req, d, run) && IsFile(Final(req, d, run), k)
    requires IsOurEntry(req.schema, Final(req, d, run), k) || (|k| == 4 && IsOurs(req.schema, k))
    ensures k in ConfKeys(req) || k in AssetKeys(req)
  {
    hide Tree, Modern, CompleteRun, Final, IsFile, IsOurEntry, IsOurs, InConfArea, IsCleaned, ConfKeys, AssetKeys;
    ConfAreaIsOurs(req, Final(req, d, run), k);
    CleanedIsOurs(req, k);
    ManagedIsAsked(req, d, run, k);
  }

  /** Of what was there, a run that reaches its end changes nothing that is neither the request's nor ours. */
  lemma OthersStay(req: Request, d: Disk, run: SyncRun, ops: seq<Op>, k: Path)
    requires Tree(d) && FinishedRun(req, d, run, ops) && k in d && k !in FilesOf(req)
    requires !IsOurEntry(req.schema, d, k) && !(|k| >= 3 && IsOurs(req.schema, k))
    ensures k in Run(d, ops) && Run(d, ops)[k] == d[k]
  {
    hide Tree, FinishedRun, FilesOf, IsOurEntry, IsOurs, IsCleaned, Run, HasCleanedPrefix;
    ConfAreaIsOurs(req, d, k);
    CleanedIsOurs(req, k);
    SyncFrame(req, d, run, ops, k);
  }

  /** A directory called `shared` stays, except under the legacy schema, which does not use one. */
  lemma SharedDirs(req: Request, d: Disk, run: SyncRun, dir: Path)
    requires CompleteRun(req, d, run) && Fits(req, run) && dir != [] && Last(dir) == "shared"
    requires dir in KernelDirs(InstallPhase(req, d, run).disk, req.schema)
    ensures !req.schema.Legacy? ==> forall op | op in run.trees :: op.path != dir
    ensures req.schema.Legacy? && (forall r | r in Results(req, d, run) :: r.kernelDir != dir) ==>
              Key(dir) !in Run(InstallPhase(req, d, run).disk, CleanupOps(run))
  {
    hide Installs, InstallsResults, InstallsJustified, AllCan, Run, KernelDirs, StaleConfs, StaleFiles;
  }

  lemma KeptDirAbove(req: Request, d: Disk, k: Path)
    requires Keeps(req, d) && IsFile(d, k) && |k| > 4
    ensures IsStaleDir(req, d, k[..3]) <==> IsCleaned(req, k) && !IsInUse(req, d, k[..3])
  {
    hide Tree, Modern, Genuine, Agrees, AllKept, IsStaleDir, IsCleaned, IsInUse;
    DirAbove(d, k[..3], k);
    KeptDirIs(req, d, k);
  }

  /** Which files a complete run removes: of ours, those that are not asked for. */
  lemma OursAreRemoved(req: Request, d: Disk, run: SyncRun, k: Path)
    requires Keeps(req, d) && CompleteRun(req, d, run) && IsFile(d, k) && k !in StagingKeys(req)
    ensures IsFile(Final(req, d, run), k) <==>
              || k in ConfKeys(req) || k in AssetKeys(req)
              || !(|| IsOurEntry(req.schema, d, k)
                   || (|k| == 4 && IsOurs(req.schema, k))
                   || (|k| > 4 && IsOurs(req.schema, k) && !IsInUse(req, d, k[..3])))
  {
    hide Keeps, CompleteRun, Final, IsFile, IsOurEntry, IsOurs, InConfArea, IsCleaned, ConfKeys, AssetKeys, StagingKeys,
         IsStaleDir, IsInUse;
    ConfAreaIsOurs(req, d, k);
    CleanedIsOurs(req, k);
    RemovedExactly(req, d, run, k);
    if |k| > 4 {
      KeptDirAbove(req, d, k);
    }
  }
}
