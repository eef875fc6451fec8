/** The paths a request is about, and how the volume spells them. */
module Wanted {
  import opened Text
  import opened Fat
  import opened Volumes
  import opened AtomicCopy
  import opened Compare
  import opened Entries
  import opened Assets
  import opened Conf
  import opened SyncPlan
  import opened Loaders
  import opened Cmdlines

  // ---------------------------------------------------------------- wanted paths

  ghost predicate InConf(req: Request, p: Path) {
    exists item | item in req.items :: p <= WantedConf(req, item)
  }

  ghost predicate InDest(req: Request, p: Path) {
    exists item, asset | item in req.items && asset in item.entry.Assets() :: p <= WantedDest(req, item, asset)
  }

  /** The configurations and the destinations, with all directories above them. */
  ghost predicate IsWanted(req: Request, p: Path) {
    p != [] && (InConf(req, p) || InDest(req, p))
  }

  lemma WantedPrefix(req: Request, p: Path, q: Path)
    requires IsWanted(req, p) && q <= p && q != []
    ensures IsWanted(req, q)
  {
    if InConf(req, p) {
      var item :| item in req.items && p <= WantedConf(req, item);
      assert q <= WantedConf(req, item);
    } else {
      var item, asset :| item in req.items && asset in item.entry.Assets() && p <= WantedDest(req, item, asset);
      assert q <= WantedDest(req, item, asset);
    }
  }

  // ---------------------------------------------------------------- spelling on the volume

  /** How the volume spells the last component of a path, or would if it created it. */
  function NameOf(d: Disk, p: Path): string {
    NameAt(d, Key(p), Wish(p))
  }

  /** The last component as it is asked for. */
  function Wish(p: Path): string {
    if p == [] then "" else Last(p)
  }

  lemma WishLast(w: Path)
    requires w != []
    ensures Wish(w) == Last(w)
  {
  }

  /** A path as the volume spells it. */
  function OnDisk(d: Disk, p: Path): (r: Path)
    ensures |r| == |p|
  {
    if p == [] then [] else OnDisk(d, Parent(p)) + [NameOf(d, p)]
  }

  lemma {:induction false} OnDiskKey(d: Disk, p: Path)
    requires Tree(d)
    ensures Key(OnDisk(d, p)) == Key(p)
  {
    if p != [] {
      OnDiskKey(d, Parent(p));
      KeyAppend(OnDisk(d, Parent(p)), [NameOf(d, p)]);
      KeyParent(p);
      assert Key(p) == Key(Parent(p)) + [Fold(Last(p))];
      assert Key([NameOf(d, p)]) == [Fold(NameOf(d, p))];
      assert Key(p) in d ==> Placed(d, Key(p));
    }
  }

  /** Paths of one key are spelled alike where there is something. */
  lemma {:induction false} OnDiskSameKey(d: Disk, p: Path, q: Path)
    requires Tree(d) && Key(p) == Key(q) && (p == [] || Key(p) in d)
    ensures OnDisk(d, p) == OnDisk(d, q)
  {
    assert |p| == |Key(p)| == |q|;
    if p != [] {
      KeyParent(p);
      KeyParent(q);
      assert Placed(d, Key(p));
      OnDiskSameKey(d, Parent(p), Parent(q));
    }
  }

  lemma OnDiskLast(d: Disk, p: Path)
    requires p != []
    ensures OnDisk(d, p) == OnDisk(d, Parent(p)) + [NameOf(d, p)]
  {
  }

  lemma {:induction false} OnDiskTake(d: Disk, p: Path, n: nat)
    requires n <= |p|
    ensures OnDisk(d, p)[..n] == OnDisk(d, p[..n])
  {
    if n < |p| {
      OnDiskTake(d, Parent(p), n);
      assert Parent(p)[..n] == p[..n];
    } else {
      assert p[..n] == p;
    }
  }

  /** Case-insensitive joining builds exactly this spelling. */
  lemma JoinOnDisk(d: Disk, p: Path, name: string)
    requires Tree(d)
    ensures JoinAt(d, OnDisk(d, p), name) == OnDisk(d, p + [name])
  {
    OnDiskKey(d, p);
    KeyAppend(OnDisk(d, p), [name]);
    KeyAppend(p, [name]);
    assert Parent(p + [name]) == p;
  }

  lemma NamespaceOnDisk(d: Disk, namespace: string)
    requires Tree(d)
    ensures NamespaceDir(d, namespace) == OnDisk(d, ["EFI", namespace])
  {
    hide JoinAt;
    assert OnDisk(d, []) == [];
    JoinOnDisk(d, [], "EFI");
    assert [] + ["EFI"] == ["EFI"];
    hide OnDisk;
    JoinOnDisk(d, ["EFI"], namespace);
    assert ["EFI"] + [namespace] == ["EFI", namespace];
  }

  lemma EntriesOnDisk(d: Disk)
    requires Tree(d)
    ensures EntriesDir(d) == OnDisk(d, ["loader", "entries"])
  {
    hide JoinAt;
    assert OnDisk(d, []) == [];
    JoinOnDisk(d, [], "loader");
    assert [] + ["loader"] == ["loader"];
    hide OnDisk;
    JoinOnDisk(d, ["loader"], "entries");
    assert ["loader"] + ["entries"] == ["loader", "entries"];
  }

  lemma ConfOnDisk(req: Request, d: Disk, item: Item)
    requires Tree(d)
    ensures JobOf(req, d, item).conf == OnDisk(d, WantedConf(req, item))
  {
    hide GenerateEntry, AssetPairs;
    EntriesOnDisk(d);
    JoinOnDisk(d, ["loader", "entries"], ConfName(req, item));
    assert ["loader", "entries"] + [ConfName(req, item)] == WantedConf(req, item);
  }

  // ---------------------------------------------------------------- conditions

  /** The hashed assets are what the sources hold, and the table is theirs. */
  ghost predicate Genuine(req: Request) {
    && Tabulates(req.table, AllAssets(EntriesOf(req)))
    && forall item | item in req.items ::
         && item.entry.image.kind.Image?
         && forall asset | asset in item.entry.Assets() :: IsGenuine(req, item, asset)
  }

  function SourceOf(item: Item, asset: HashedAsset): Path {
    JoinPath(item.entry.inner.sysroot, asset.path)
  }

  predicate IsGenuine(req: Request, item: Item, asset: HashedAsset) {
    && SourceOf(item, asset) in req.host.files
    && asset.hash == Blake3(req.host.files[SourceOf(item, asset)])
    && asset.kernelVersion == item.entry.inner.kernel.version
  }

  function EntriesOf(req: Request): (r: seq<HashedEntry>)
    ensures |r| == |req.items|
    ensures forall i | 0 <= i < |r| :: r[i] == req.items[i].entry
  {
    seq(|req.items|, i requires 0 <= i < |req.items| => req.items[i].entry)
  }

  lemma {:induction false} InitrdsGenuine(host: Host, entry: Entry, files: seq<AuxFile>, asset: HashedAsset)
    requires HashInitrds(host, entry, files).Some? && asset in HashInitrds(host, entry, files).value
    ensures JoinPath(entry.sysroot, asset.path) in host.files
    ensures asset.hash == Blake3(host.files[JoinPath(entry.sysroot, asset.path)])
    ensures asset.kernelVersion == entry.kernel.version && !asset.kind.Image?
    ensures FileName(asset.path) == Some(asset.fileName)
    ensures exists file | file in files ::
              file.path == asset.path && AssetKindOf(file.kind) == Some(asset.kind)
  {
    hide JoinPath;
    var front, last := files[..|files| - 1], Last(files);
    if asset in HashInitrds(host, entry, front).value {
      InitrdsGenuine(host, entry, front, asset);
    } else {
      assert last in files;
    }
  }

  lemma {:induction false} HashedAt(host: Host, entries: seq<Entry>, i: nat)
    requires HashEntries(host, entries).Some? && i < |entries|
    ensures |HashEntries(host, entries).value| == |entries|
    ensures HashEntry(host, entries[i]) == Some(HashEntries(host, entries).value[i])
  {
    hide HashEntry;
    var front := entries[..|entries| - 1];
    if front != [] {
      HashedAt(host, front, if i < |front| then i else 0);
    }
  }

  /** The assets of a hashed entry are what its sources hold. */
  lemma EntryGenuine(req: Request, item: Item, entry: Entry)
    requires HashEntry(req.host, entry) == Some(item.entry)
    ensures item.entry.inner == entry && item.entry.image.kind.Image?
    ensures forall asset | asset in item.entry.Assets() :: IsGenuine(req, item, asset)
  {
    hide HashInitrds, JoinPath;
    forall asset | asset in item.entry.Assets()
      ensures IsGenuine(req, item, asset)
    {
      if asset != item.entry.image {
        InitrdsGenuine(req.host, entry, entry.kernel.initrd, asset);
      }
    }
  }

  /** A request made by hashing entries is genuine, and its items are those entries in order. */
  lemma RequestIsGenuine(req: Request, host: Host, schema: Schema, global: GlobalCmdline, entries: seq<Entry>)
    requires IsRequest(req, host, schema, global, entries)
    ensures Genuine(req)
    ensures |req.items| == |entries|
    ensures forall i | 0 <= i < |entries| :: req.items[i].entry.inner == entries[i]
  {
    hide HashEntry, HashEntries, FullCmdline, IsGenuine, Tabulates;
    var hashed := HashEntries(host, entries).value;
    if entries != [] {
      HashedAt(host, entries, 0);
    } else {
      assert HashEntries(host, []) == Some([]) by {
        HashNothing(host);
      }
    }
    assert EntriesOf(req) == hashed;
    forall i | 0 <= i < |entries|
      ensures req.items[i].entry.inner == entries[i] && req.items[i].entry.image.kind.Image?
      ensures forall asset | asset in req.items[i].entry.Assets() :: IsGenuine(req, req.items[i], asset)
    {
      HashedAt(host, entries, i);
      EntryGenuine(req, req.items[i], entries[i]);
    }
  }

  /** The request is a function of the inputs. */
  lemma RequestUnique(req: Request, other: Request, host: Host, schema: Schema, global: GlobalCmdline,
                      entries: seq<Entry>)
    requires IsRequest(req, host, schema, global, entries) && IsRequest(other, host, schema, global, entries)
    ensures req == other
  {
    hide HashEntries, FullCmdline, Tabulates, AllAssets;
    TableUnique(req.table, other.table, AllAssets(HashEntries(host, entries).value));
  }

  lemma HashNothing(host: Host)
    ensures HashEntries(host, []) == Some([])
  {
  }

  /** No legacy schema is followed, and assets are named as discovery finds them. */
  ghost predicate Modern(req: Request) {
    && !req.schema.Legacy?
    && (forall item | item in req.items :: !EffectiveSchema(req, item).Legacy?)
    && (forall item, asset | item in req.items && asset in item.entry.Assets() :: WellNamed(asset))
  }

  lemma ModernItem(req: Request, item: Item)
    requires Modern(req) && item in req.items
    ensures !EffectiveSchema(req, item).Legacy?
    ensures forall asset | asset in item.entry.Assets() :: WellNamed(asset)
  {
  }

  lemma ModernAt(req: Request, i: nat)
    requires Modern(req) && i < |req.items|
    ensures !EffectiveSchema(req, req.items[i]).Legacy?
  {
    ModernItem(req, req.items[i]);
  }

  /**
   What makes requests simple: besides the above no two wanted paths that differ only in case, and entries
   with distinct identifiers.
   */
  ghost predicate Tidy(req: Request) {
    && Modern(req)
    && (forall p, q | IsWanted(req, p) && IsWanted(req, q) && Key(p) == Key(q) :: p == q)
    && (forall i, j | 0 <= i < j < |req.items| :: ConfName(req, req.items[i]) != ConfName(req, req.items[j]))
  }

  lemma TidyModern(req: Request)
    requires Tidy(req)
    ensures Modern(req)
  {
  }

  /** Kernel directories and assets already on the volume are spelled as they are wanted. */
  ghost predicate WellSpelled(req: Request, d: Disk) {
    forall item, asset | item in req.items && asset in item.entry.Assets() ::
      SpelledAs(d, WantedDest(req, item, asset))
  }

  predicate SpelledAs(d: Disk, w: Path) {
    forall n | 2 < n <= |w| :: NameOf(d, w[..n]) == w[n - 1]
  }

  // ---------------------------------------------------------------- where assets go

  lemma DestShape(req: Request, item: Item, asset: HashedAsset)
    requires !EffectiveSchema(req, item).Legacy?
    ensures |WantedDest(req, item, asset)| == 4
    ensures WantedDest(req, item, asset)[..2] == ["EFI", EffectiveSchema(req, item).OsNamespace()]
    ensures WantedDest(req, item, asset)[2] == if asset.kind.SharedInitrd? then "shared" else asset.kernelVersion
  {
    hide ConflictSuffix, ConflictIndex;
  }

  lemma WantedDestIsWanted(req: Request, item: Item, asset: HashedAsset)
    requires item in req.items && asset in item.entry.Assets()
    ensures IsWanted(req, WantedDest(req, item, asset))
  {
    hide HashedAsset.InstalledName;
    assert WantedDest(req, item, asset) <= WantedDest(req, item, asset);
  }

  lemma WantedConfIsWanted(req: Request, item: Item)
    requires item in req.items
    ensures IsWanted(req, WantedConf(req, item))
  {
    assert WantedConf(req, item) <= WantedConf(req, item);
  }

  lemma WantedConfOf(req: Request, p: Path) returns (item: Item)
    requires IsWanted(req, p) && |p| == 3 && |p[0]| == 6
    ensures item in req.items && p == WantedConf(req, item)
  {
    hide HashedAsset.InstalledName, ConfName;
    assert !InDest(req, p);
    item :| item in req.items && p <= WantedConf(req, item);
  }

  // ---------------------------------------------------------------- staging files

  /** The last character of every name an asset is installed under differs from that of a staging file. */
  lemma InstalledLeafEnd(asset: HashedAsset, schema: Schema, table: Table)
    requires WellNamed(asset) && !schema.Legacy?
    ensures var leaf := Last(asset.InstalledName(schema, table));
            leaf != [] && FoldChar(Last(leaf)) != 'e'
  {
    var index := ConflictIndex(table, asset);
    var leaf := Last(asset.InstalledName(schema, table));
    assert leaf == asset.fileName + ConflictSuffix(index);
    if index.Some? {
      DecimalDigit(index.value, |Decimal(index.value)| - 1);
      assert Last(leaf) == Last(Decimal(index.value));
    } else {
      assert leaf == asset.fileName;
      if !asset.kind.Image? {
        assert Last(asset.fileName) == Last(asset.fileName[|asset.fileName| - 7..]) == 'd';
      }
    }
  }

  lemma StagingLeafEnd(dest: Path)
    requires dest != []
    ensures var leaf := Last(Key(Staging(dest))); leaf != [] && Last(leaf) == 'e'
  {
    var staged := Stem(Last(dest)) + "..TmpWrite";
    assert Last(Staging(dest)) == staged && Last(staged) == 'e';
    assert Last(Key(Staging(dest))) == Fold(staged);
  }

  /** A staging file never is a wanted path. */
  lemma StagingNotWanted(req: Request, dest: Path, p: Path)
    requires Modern(req) && |dest| == 4 && IsWanted(req, p)
    ensures Key(p) != Key(Staging(dest))
  {
    StagingLeafEnd(dest);
    StagingDiffers(dest);
    if |p| == 4 {
      assert InDest(req, p);
      var item, asset :| item in req.items && asset in item.entry.Assets() && p <= WantedDest(req, item, asset);
      DestShape(req, item, asset);
      assert p == WantedDest(req, item, asset);
      LeafOfDest(req, item, asset);
      InstalledLeafEnd(asset, EffectiveSchema(req, item), req.table);
      hide HashedAsset.InstalledName, WantedDest, IsWanted;
      assert Last(Last(Key(p))) == FoldChar(Last(Last(p)));
    }
  }

  lemma LeafOfDest(req: Request, item: Item, asset: HashedAsset)
    requires !EffectiveSchema(req, item).Legacy?
    ensures var schema := EffectiveSchema(req, item);
            Last(WantedDest(req, item, asset)) == Last(asset.InstalledName(schema, req.table))
  {
    hide ConflictSuffix, ConflictIndex;
  }
}
