/** Hashed assets, the table of their collisions, and the names they are installed under. */
module Assets {
  import opened Text
  import opened Compare
  import opened Entries

  datatype AssetKind = Image | VersionedInitrd | SharedInitrd

  datatype AssetScope = Versioned(version: string) | Shared

  datatype AssetKey = AssetKey(scope: AssetScope, fileName: string)

  datatype HashedAsset = HashedAsset(
    kind: AssetKind,
    kernelVersion: string,
    path: Path,
    fileName: string,
    hash: Hash
  )
  {
    function Key(): AssetKey {
      AssetKey(if kind.SharedInitrd? then Shared else Versioned(kernelVersion), fileName)
    }

    /** Where the asset goes below its namespace directory. */
    function InstalledName(schema: Schema, table: Table): Path {
      if schema.Legacy? then
        [if kind.Image? then "kernel-" + fileName else fileName]
      else
        var suffix := ConflictSuffix(ConflictIndex(table, this));
        match kind
        case Image => [kernelVersion, "vmlinuz" + suffix]
        case VersionedInitrd => [kernelVersion, fileName + suffix]
        case SharedInitrd => ["shared", fileName + suffix]
    }
  }

  datatype HashedEntry = HashedEntry(inner: Entry, image: HashedAsset, initrd: seq<HashedAsset>)
  {
    function Assets(): seq<HashedAsset> {
      [image] + initrd
    }
  }

  /** All assets of the entries, in the order they are recorded. */
  function AllAssets(entries: seq<HashedEntry>): seq<HashedAsset> {
    if entries == [] then [] else AllAssets(entries[..|entries| - 1]) + Last(entries).Assets()
  }

  // ---------------------------------------------------------------- collisions

  type Table = map<AssetKey, seq<Hash>>

  function Recorded(table: Table, key: AssetKey): seq<Hash> {
    if key in table then table[key] else []
  }

  function Position(hashes: seq<Hash>, h: Hash): (r: Option<nat>)
    ensures r.Some? <==> h in hashes
    ensures r.Some? ==> r.value < |hashes| && hashes[r.value] == h && h !in hashes[..r.value]
  {
    if hashes == [] then None
    else if hashes[0] == h then Some(0)
    else
      var rest := Position(hashes[1..], h);
      if rest.Some? then
        assert hashes[..rest.value + 1] == [hashes[0]] + hashes[1..][..rest.value];
        Some(rest.value + 1)
      else None
  }

  lemma {:induction false} PositionUnique(hashes: seq<Hash>, h: Hash, i: nat)
    requires i < |hashes| && hashes[i] == h && h !in hashes[..i]
    ensures Position(hashes, h) == Some(i)
  {
    if i > 0 {
      assert hashes[0] in hashes[..i];
      assert hashes[1..][..i - 1] == hashes[..i][1..];
      PositionUnique(hashes[1..], h, i - 1);
    }
  }

  /** An index for an asset whose key was seen with more than one content. */
  function ConflictIndex(table: Table, asset: HashedAsset): Option<nat> {
    var hashes := Recorded(table, asset.Key());
    if |hashes| > 1 then Position(hashes, asset.hash) else None
  }

  function ConflictSuffix(index: Option<nat>): string {
    if index.Some? then "." + Decimal(index.value) else ""
  }

  /** The distinct hashes a key was seen with, each where it first occurred. */
  function HashesOf(assets: seq<HashedAsset>, key: AssetKey): seq<Hash> {
    if assets == [] then []
    else
      var before := HashesOf(assets[..|assets| - 1], key);
      var asset := Last(assets);
      if asset.Key() == key && asset.hash !in before then before + [asset.hash] else before
  }

  /** The table says for each key what the naive list says. */
  ghost predicate Tabulates(table: Table, assets: seq<HashedAsset>) {
    && (forall key :: Recorded(table, key) == HashesOf(assets, key))
    && (forall key | key in table :: table[key] != [])
  }

  /** There is one such table. */
  lemma TableUnique(table: Table, other: Table, assets: seq<HashedAsset>)
    requires Tabulates(table, assets) && Tabulates(other, assets)
    ensures table == other
  {
    forall key
      ensures key in table <==> key in other
      ensures key in table ==> table[key] == other[key]
    {
      assert Recorded(table, key) == HashesOf(assets, key) == Recorded(other, key);
    }
  }

  class AssetCollisions {
    var table: Table

    constructor ()
      ensures table == map[]
    {
      table := map[];
    }

    method Insert(key: AssetKey, hash: Hash)
      modifies this
      ensures table == old(table)[key := Recorded(old(table), key) +
                                         if hash in Recorded(old(table), key) then [] else [hash]]
    {
      var hashes := Recorded(table, key);
      assert hashes + [] == hashes;
      if hash !in hashes {
        hashes := hashes + [hash];
      }
      table := table[key := hashes];
    }

    method InsertAsset(asset: HashedAsset, ghost assets: seq<HashedAsset>)
      requires Tabulates(table, assets)
      modifies this
      ensures Tabulates(table, assets + [asset])
    {
      Insert(asset.Key(), asset.hash);
      assert (assets + [asset])[..|assets|] == assets;
    }

    /** `from_entries`. */
    constructor FromEntries(entries: seq<HashedEntry>)
      ensures Tabulates(table, AllAssets(entries))
    {
      table := map[];
      new;
      assert entries[..0] == [];
      for i := 0 to |entries|
        invariant Tabulates(table, AllAssets(entries[..i]))
      {
        ghost var before := AllAssets(entries[..i]);
        var entry := entries[i];
        assert entries[..i + 1][..i] == entries[..i];
        InsertAsset(entry.image, before);
        assert before + [entry.image] + entry.initrd[..0] == before + [entry.image];
        for j := 0 to |entry.initrd|
          invariant Tabulates(table, before + [entry.image] + entry.initrd[..j])
        {
          assert before + [entry.image] + entry.initrd[..j + 1]
              == before + [entry.image] + entry.initrd[..j] + [entry.initrd[j]];
          InsertAsset(entry.initrd[j], before + [entry.image] + entry.initrd[..j]);
        }
        assert before + [entry.image] + entry.initrd[..|entry.initrd|] == before + entry.Assets();
      }
      assert entries[..|entries|] == entries;
    }
  }

  /** Each hash of a key is listed once, at the point it first occurs. */
  lemma {:induction false} HashesFirstOccur(assets: seq<HashedAsset>, key: AssetKey, i: nat) returns (p: nat)
    requires i < |HashesOf(assets, key)|
    ensures p < |assets| && assets[p].Key() == key && assets[p].hash == HashesOf(assets, key)[i]
    ensures HashesOf(assets[..p], key) == HashesOf(assets, key)[..i]
    ensures HashesOf(assets, key)[i] !in HashesOf(assets, key)[..i]
  {
    var front := assets[..|assets| - 1];
    if i < |HashesOf(front, key)| {
      p := HashesFirstOccur(front, key, i);
      assert assets[..p] == front[..p];
    } else {
      p := |assets| - 1;
    }
  }

  /** Every asset is recorded under its key. */
  lemma {:induction false} HashesComplete(assets: seq<HashedAsset>, asset: HashedAsset)
    requires asset in assets
    ensures asset.hash in HashesOf(assets, asset.Key())
  {
    if asset != Last(assets) {
      HashesComplete(assets[..|assets| - 1], asset);
    }
  }

  /** More assets only extend what is recorded. */
  lemma {:induction false} HashesGrow(assets: seq<HashedAsset>, more: seq<HashedAsset>, key: AssetKey)
    ensures HashesOf(assets, key) <= HashesOf(assets + more, key)
    decreases |more|
  {
    if more == [] {
      assert assets + more == assets;
    } else {
      var front := more[..|more| - 1];
      HashesGrow(assets, front, key);
      assert (assets + more)[..|assets + more| - 1] == assets + front;
    }
  }

  /** An asset gets an index exactly when its key was seen with two different contents. */
  lemma IndexedWhenConflicting(assets: seq<HashedAsset>, table: Table, asset: HashedAsset)
    requires Tabulates(table, assets) && asset in assets
    ensures ConflictIndex(table, asset).Some? <==>
            exists a, b | a in assets && b in assets ::
              a.Key() == asset.Key() && b.Key() == asset.Key() && a.hash != b.hash
  {
    var hashes := Recorded(table, asset.Key());
    assert hashes == HashesOf(assets, asset.Key());
    HashesComplete(assets, asset);
    if |hashes| > 1 {
      var p := HashesFirstOccur(assets, asset.Key(), 0);
      var q := HashesFirstOccur(assets, asset.Key(), 1);
      assert hashes[0] in hashes[..1];
      assert assets[p] in assets && assets[q] in assets;
    }
    forall a, b | a in assets && b in assets
                  && a.Key() == asset.Key() && b.Key() == asset.Key() && a.hash != b.hash
      ensures |hashes| > 1
    {
      HashesComplete(assets, a);
      HashesComplete(assets, b);
    }
  }

  /** Appending entries never changes an index; an asset without one can only gain index 0. */
  lemma IndexStable(assets: seq<HashedAsset>, more: seq<HashedAsset>, table: Table, later: Table, asset: HashedAsset)
    requires Tabulates(table, assets) && Tabulates(later, assets + more) && asset in assets
    ensures ConflictIndex(table, asset).Some? ==> ConflictIndex(later, asset) == ConflictIndex(table, asset)
    ensures ConflictIndex(table, asset).None? ==> ConflictIndex(later, asset) in {None, Some(0)}
  {
    var key := asset.Key();
    var hashes, grown := Recorded(table, key), Recorded(later, key);
    assert hashes == HashesOf(assets, key) && grown == HashesOf(assets + more, key);
    HashesGrow(assets, more, key);
    HashesComplete(assets, asset);
    var i := Position(hashes, asset.hash).value;
    assert grown[..i] == hashes[..i];
    PositionUnique(grown, asset.hash, i);
    PositionUnique(hashes, asset.hash, i);
  }

  // ---------------------------------------------------------------- naming

  predicate EndsInDigit(s: string) {
    s != [] && IsDigit(Last(s))
  }

  /** A name that does not end in a digit is recovered from what a conflict suffix makes of it. */
  lemma LeafDecodes(b: string, i: Option<nat>, c: string, j: Option<nat>)
    requires !EndsInDigit(b) && !EndsInDigit(c)
    requires b + ConflictSuffix(i) == c + ConflictSuffix(j)
    ensures b == c && i == j
  {
    assert b + "" == b && c + "" == c;
    if i.Some? && j.Some? {
      NumberedDecodes(b, i.value, c, j.value);
    } else if i.Some? {
      NumberedEndsInDigit(b, i.value);
    } else if j.Some? {
      NumberedEndsInDigit(c, j.value);
    }
  }

  lemma NumberedEndsInDigit(b: string, i: nat)
    ensures EndsInDigit(b + ConflictSuffix(Some(i)))
  {
    DecimalDigit(i, |Decimal(i)| - 1);
  }

  lemma NumberedDecodes(b: string, i: nat, c: string, j: nat)
    requires b + ("." + Decimal(i)) == c + ("." + Decimal(j))
    ensures b == c && i == j
  {
    LastDot(b, i);
    LastDot(c, j);
    var leaf := b + ("." + Decimal(i));
    assert b == leaf[..|b|] == c;
    assert Decimal(i) == leaf[|b| + 1..] == Decimal(j);
    DecimalInjective(i, j);
  }

  lemma LastDot(b: string, i: nat)
    ensures LastIndexOf(b + ("." + Decimal(i)), '.') == |b|
  {
    var leaf := b + ("." + Decimal(i));
    forall k | |b| < k < |leaf|
      ensures leaf[k] != '.'
    {
      DecimalDigit(i, k - |b| - 1);
    }
    assert leaf[|b|] == '.';
  }

  /** What discovery guarantees of the assets it finds. */
  predicate WellNamed(asset: HashedAsset) {
    && asset.kernelVersion != "shared"
    && (if asset.kind.Image? then asset.fileName == "vmlinuz" else EndsWith(asset.fileName, ".initrd"))
  }

  lemma WellNamedLeaf(asset: HashedAsset)
    requires WellNamed(asset)
    ensures !EndsInDigit(asset.fileName)
    ensures asset.fileName == "vmlinuz" <==> asset.kind.Image?
  {
    if !asset.kind.Image? {
      assert Last(asset.fileName) == Last(asset.fileName[|asset.fileName| - 7..]) == 'd';
    }
  }

  /** The name an asset has where nothing else has its name: images are all called alike. */
  function PlainLeaf(asset: HashedAsset): string {
    if asset.kind.Image? then "vmlinuz" else asset.fileName
  }

  lemma NameOfAsset(asset: HashedAsset, schema: Schema, table: Table)
    ensures schema.Legacy? ==>
              asset.InstalledName(schema, table)
                == [if asset.kind.Image? then "kernel-" + asset.fileName else asset.fileName]
    ensures !schema.Legacy? ==>
              asset.InstalledName(schema, table)
                == [if asset.kind.SharedInitrd? then "shared" else asset.kernelVersion,
                    PlainLeaf(asset) + ConflictSuffix(ConflictIndex(table, asset))]
  {
    hide ConflictIndex, ConflictSuffix;
  }

  /** The name under which a well-named asset is installed gives back its key and its index. */
  lemma InstalledNameDecodes(table: Table, a: HashedAsset, b: HashedAsset, s: Schema, t: Schema)
    requires WellNamed(a) && WellNamed(b) && !s.Legacy? && !t.Legacy?
    requires a.InstalledName(s, table) == b.InstalledName(t, table)
    ensures a.Key() == b.Key() && ConflictIndex(table, a) == ConflictIndex(table, b)
  {
    hide HashedAsset.InstalledName, ConflictSuffix, ConflictIndex;
    var m, n := a.InstalledName(s, table), b.InstalledName(t, table);
    WellNamedLeaf(a);
    WellNamedLeaf(b);
    NameOfAsset(a, s, table);
    NameOfAsset(b, t, table);
    assert m[0] == n[0] && m[1] == n[1];
    hide WellNamed, EndsInDigit;
    LeafDecodes(a.fileName, ConflictIndex(table, a), b.fileName, ConflictIndex(table, b));
  }

  /** Among recorded assets, key and index determine the content. */
  lemma IndexDeterminesHash(assets: seq<HashedAsset>, table: Table, a: HashedAsset, b: HashedAsset)
    requires Tabulates(table, assets) && a in assets && b in assets && a.Key() == b.Key()
    ensures ConflictIndex(table, a) == ConflictIndex(table, b) <==> a.hash == b.hash
  {
    hide Position;
    var hashes := Recorded(table, a.Key());
    assert hashes == HashesOf(assets, a.Key());
    HashesComplete(assets, a);
    HashesComplete(assets, b);
    if |hashes| == 1 {
      assert a.hash == hashes[0] == b.hash;
    }
  }

  /**
   Two assets are installed under the same name exactly when they agree in key and content: different
   contents never overwrite each other, and equal contents are stored once.
   */
  lemma InstalledNamesBijective(assets: seq<HashedAsset>, table: Table, a: HashedAsset, b: HashedAsset,
                                s: Schema, t: Schema)
    requires Tabulates(table, assets) && a in assets && b in assets
    requires WellNamed(a) && WellNamed(b) && !s.Legacy? && !t.Legacy?
    ensures a.InstalledName(s, table) == b.InstalledName(t, table) <==> a.Key() == b.Key() && a.hash == b.hash
  {
    hide ConflictIndex, ConflictSuffix, HashesOf;
    if a.InstalledName(s, table) == b.InstalledName(t, table) {
      InstalledNameDecodes(table, a, b, s, t);
      IndexDeterminesHash(assets, table, a, b);
    } else if a.Key() == b.Key() && a.hash == b.hash {
      IndexDeterminesHash(assets, table, a, b);
      WellNamedLeaf(a);
      WellNamedLeaf(b);
    }
  }

  // ---------------------------------------------------------------- hashing

  function AssetKindOf(kind: AuxKind): Option<AssetKind> {
    match kind
    case VersionedInitRd => Some(VersionedInitrd)
    case SharedInitRd => Some(SharedInitrd)
    case _ => None
  }

  function HashAsset(host: Host, entry: Entry, kind: AssetKind, path: Path): Option<HashedAsset> {
    var full := JoinPath(entry.sysroot, path);
    if FileName(path).Some? && full in host.files then
      Some(HashedAsset(kind, entry.kernel.version, path, FileName(path).value, Blake3(host.files[full])))
    else None
  }

  /** The initrds of an entry, hashed, in order; other kinds of file are passed over. */
  function HashInitrds(host: Host, entry: Entry, files: seq<AuxFile>): Option<seq<HashedAsset>> {
    if files == [] then Some([])
    else
      var rest := HashInitrds(host, entry, files[..|files| - 1]);
      var kind := AssetKindOf(Last(files).kind);
      if rest.None? then None
      else if kind.None? then rest
      else
        var asset := HashAsset(host, entry, kind.value, Last(files).path);
        if asset.None? then None else Some(rest.value + [asset.value])
  }

  /** One initrd that cannot be hashed spoils the list. */
  lemma {:induction false} NoInitrds(host: Host, entry: Entry, files: seq<AuxFile>, n: nat)
    requires n <= |files| && HashInitrds(host, entry, files[..n]).None?
    ensures HashInitrds(host, entry, files).None?
    decreases |files|
  {
    if n < |files| {
      assert files[..|files| - 1][..n] == files[..n];
      NoInitrds(host, entry, files[..|files| - 1], n);
    } else {
      assert files[..n] == files;
    }
  }

  function HashEntry(host: Host, entry: Entry): Option<HashedEntry> {
    var image := HashAsset(host, entry, Image, entry.kernel.image);
    var initrd := HashInitrds(host, entry, entry.kernel.initrd);
    if image.None? || initrd.None? then None
    else Some(HashedEntry(entry, image.value, initrd.value))
  }

  /** An asset is made of a file of an entry: an absolute path is read as it is. */
  predicate IsMadeOf(host: Host, entry: Entry, asset: HashedAsset, path: Path) {
    && path != [] && asset.path == path && asset.fileName == Last(path) && asset.kernelVersion == entry.kernel.version
    && (path[0] == "/" ==> path in host.files && asset.hash.content == host.files[path])
    && (path[0] != "/" ==>
          entry.sysroot + path in host.files && asset.hash.content == host.files[entry.sysroot + path])
  }

  /** The positions of the versioned and of the shared initrds, in order. */
  ghost predicate AreInitrds(at: seq<nat>, files: seq<AuxFile>) {
    && Increasing(at)
    && forall i: nat :: i in at <==> i < |files| && (files[i].kind.VersionedInitRd? || files[i].kind.SharedInitRd?)
  }

  /** The assets are made of the files at the positions, and shared exactly when these are. */
  ghost predicate AreMadeOf(host: Host, entry: Entry, files: seq<AuxFile>, at: seq<nat>, assets: seq<HashedAsset>) {
    && |assets| == |at|
    && forall j | 0 <= j < |at| ::
         && at[j] < |files| && IsMadeOf(host, entry, assets[j], files[at[j]].path)
         && assets[j].kind == if files[at[j]].kind.SharedInitRd? then SharedInitrd else VersionedInitrd
  }

  lemma NextInitrd(at: seq<nat>, files: seq<AuxFile>)
    requires files != [] && AreInitrds(at, files[..|files| - 1])
    ensures var initrd := Last(files).kind.VersionedInitRd? || Last(files).kind.SharedInitRd?;
            AreInitrds(if initrd then at + [|files| - 1] else at, files)
  {
    var n := |files| - 1;
    forall j | 0 <= j < |at|
      ensures at[j] < n
    {
      assert at[j] in at;
    }
    MorePositions(at, n);
    assert forall i: nat | i < n :: files[i] == files[..n][i];
  }

  lemma MorePositions(at: seq<nat>, n: nat)
    requires Increasing(at) && forall j | 0 <= j < |at| :: at[j] < n
    ensures Increasing(at + [n])
    ensures forall i: nat :: i in at + [n] <==> i in at || i == n
  {
  }

  lemma AssetMade(host: Host, entry: Entry, kind: AssetKind, path: Path)
    requires HashAsset(host, entry, kind, path).Some?
    ensures IsMadeOf(host, entry, HashAsset(host, entry, kind, path).value, path)
    ensures HashAsset(host, entry, kind, path).value.kind == kind
  {
  }

  /** The hashed initrds: one for each versioned or shared initrd, in order. */
  lemma {:induction false} InitrdsHashed(host: Host, entry: Entry, files: seq<AuxFile>) returns (at: seq<nat>)
    requires HashInitrds(host, entry, files).Some?
    ensures AreInitrds(at, files) && AreMadeOf(host, entry, files, at, HashInitrds(host, entry, files).value)
  {
    hide HashAsset, IsMadeOf, AreInitrds;
    if files == [] {
      at := [];
      NoInitrdsIn();
    } else {
      var front, last := files[..|files| - 1], Last(files);
      at := InitrdsHashed(host, entry, front);
      NextInitrd(at, files);
      if last.kind.VersionedInitRd? || last.kind.SharedInitRd? {
        AssetMade(host, entry, AssetKindOf(last.kind).value, last.path);
        at := at + [|files| - 1];
      }
    }
  }

  lemma NoInitrdsIn()
    ensures AreInitrds([], [])
  {
  }

  /** What hashing an entry gives: its image, and each versioned or shared initrd of its kernel, in order. */
  lemma EntryHashed(host: Host, entry: Entry, hashed: HashedEntry) returns (at: seq<nat>)
    requires HashEntry(host, entry) == Some(hashed)
    ensures hashed.inner == entry
    ensures hashed.image.kind.Image? && IsMadeOf(host, entry, hashed.image, entry.kernel.image)
    ensures AreInitrds(at, entry.kernel.initrd) && AreMadeOf(host, entry, entry.kernel.initrd, at, hashed.initrd)
  {
    hide HashAsset, HashInitrds, IsMadeOf, AreInitrds, AreMadeOf;
    AssetMade(host, entry, Image, entry.kernel.image);
    at := InitrdsHashed(host, entry, entry.kernel.initrd);
  }

  function HashEntries(host: Host, entries: seq<Entry>): Option<seq<HashedEntry>> {
    if entries == [] then Some([])
    else
      var rest := HashEntries(host, entries[..|entries| - 1]);
      var entry := HashEntry(host, Last(entries));
      if rest.None? || entry.None? then None else Some(rest.value + [entry.value])
  }

  /** One entry that cannot be hashed spoils the list. */
  lemma {:induction false} NoEntries(host: Host, entries: seq<Entry>, n: nat)
    requires n <= |entries| && HashEntries(host, entries[..n]).None?
    ensures HashEntries(host, entries).None?
    decreases |entries|
  {
    hide HashEntry;
    if n < |entries| {
      assert entries[..|entries| - 1][..n] == entries[..n];
      NoEntries(host, entries[..|entries| - 1], n);
    } else {
      assert entries[..n] == entries;
    }
  }

  /** `HashedAsset::new`: fails exactly when the path has no name or the file cannot be read. */
  method NewAsset(host: Host, hasher: Hasher, entry: Entry, kind: AssetKind, path: Path)
    returns (r: Option<HashedAsset>)
    requires hasher.fed == []
    modifies hasher
    ensures r.Some? ==> hasher.fed == [] && r == HashAsset(host, entry, kind, path)
    ensures old(hasher.errors) <= hasher.errors
    ensures r.None? && hasher.errors == old(hasher.errors) ==> HashAsset(host, entry, kind, path).None?
  {
    var full := JoinPath(entry.sysroot, path);
    if FileName(path).None? || full !in host.files {
      return None;
    }
    var ok := hasher.Update(host.files[full]);
    if !ok {
      return None;
    }
    var hash := hasher.Finalize();
    hasher.Reset();
    assert [] + host.files[full] == host.files[full];
    r := Some(HashedAsset(kind, entry.kernel.version, path, FileName(path).value, hash));
  }

  /** `EntryWithHashedAssets::new`. */
  method NewHashedEntry(host: Host, hasher: Hasher, entry: Entry) returns (r: Option<HashedEntry>)
    requires hasher.fed == []
    modifies hasher
    ensures r.Some? ==> hasher.fed == [] && r == HashEntry(host, entry)
    ensures r.Some? ==>
              && r.value.inner == entry && IsMadeOf(host, entry, r.value.image, entry.kernel.image)
              && exists at ::
                   && AreInitrds(at, entry.kernel.initrd)
                   && AreMadeOf(host, entry, entry.kernel.initrd, at, r.value.initrd)
    ensures old(hasher.errors) <= hasher.errors
    ensures r.None? && hasher.errors == old(hasher.errors) ==> HashEntry(host, entry).None?
  {
    var image := NewAsset(host, hasher, entry, Image, entry.kernel.image);
    if image.None? {
      return None;
    }
    var initrd, files := [], entry.kernel.initrd;
    for i := 0 to |files|
      invariant hasher.fed == [] && HashInitrds(host, entry, files[..i]) == Some(initrd)
      invariant old(hasher.errors) <= hasher.errors
    {
      assert files[..i + 1][..i] == files[..i];
      var kind := AssetKindOf(files[i].kind);
      if kind.Some? {
        var asset := NewAsset(host, hasher, entry, kind.value, files[i].path);
        if asset.None? {
          if HashAsset(host, entry, kind.value, files[i].path).None? {
            NoInitrds(host, entry, files, i + 1);
          }
          return None;
        }
        initrd := initrd + [asset.value];
      }
    }
    assert files[..|files|] == files;
    r := Some(HashedEntry(entry, image.value, initrd));
    ghost var at := EntryHashed(host, entry, r.value);
  }
}
