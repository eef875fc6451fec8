/** What the configuration of an entry names, read back. */
module ConfRefs {
  import opened Text
  import opened Fat
  import opened Entries
  import opened Assets
  import opened Conf
  import opened SyncPlan
  import opened Wanted
  import opened Convergence
  import opened Outcome
  import opened Scaffold
  import opened Turns
  import opened Exactness

  // ---------------------------------------------------------------- what a written configuration names

  /** Names and texts that fit the line format of a configuration. */
  ghost predicate Printable(req: Request) {
    forall item | item in req.items ::
      && OneLine(Title(EffectiveSchema(req, item), item.entry.inner.kernel.version)) && OneLine(item.options)
      && PlainName(EffectiveSchema(req, item).OsNamespace())
      && forall asset | asset in item.entry.Assets() :: PlainName(asset.kernelVersion) && PlainName(asset.fileName)
  }

  lemma FoldKeepsPlain(a: string, b: string)
    requires Fold(a) == Fold(b) && PlainName(a)
    ensures PlainName(b)
  {
    forall i | 0 <= i < |b|
      ensures b[i] != '/' && b[i] != '\n'
    {
      assert FoldChar(b[i]) == Fold(b)[i] == Fold(a)[i] == FoldChar(a[i]);
      assert a[i] in a;
    }
  }

  lemma {:induction false} OnDiskPlain(d: Disk, p: Path)
    requires Tree(d) && forall n | n in p :: PlainName(n)
    ensures forall n | n in OnDisk(d, p) :: PlainName(n)
  {
    if p != [] {
      assert forall n | n in Parent(p) :: n in p;
      OnDiskPlain(d, Parent(p));
      KeyParent(p);
      assert Key(p) in d ==> Placed(d, Key(p));
      FoldKeepsPlain(Last(p), NameOf(d, p));
    }
  }

  lemma SuffixPlain(index: Option<nat>)
    ensures PlainName(ConflictSuffix(index))
  {
    if index.Some? {
      forall c | c in Decimal(index.value)
        ensures c != '/' && c != '\n'
      {
      }
    }
  }

  lemma InstalledPlain(asset: HashedAsset, schema: Schema, table: Table)
    requires PlainName(asset.kernelVersion) && PlainName(asset.fileName) && !schema.Legacy?
    ensures forall n | n in asset.InstalledName(schema, table) :: PlainName(n)
  {
    SuffixPlain(ConflictIndex(table, asset));
    hide ConflictIndex, ConflictSuffix;
  }

  /** The text naming an asset, read back, is the key the asset is installed under. */
  lemma AssetTextReads(req: Request, d: Disk, item: Item, asset: HashedAsset)
    requires Tree(d) && Modern(req) && Printable(req) && item in req.items && asset in item.entry.Assets()
    ensures var schema := EffectiveSchema(req, item);
            var text := AssetText(NamespaceDir(d, schema.OsNamespace()), asset.InstalledName(schema, req.table));
            ReferenceKey(text) == Key(WantedDest(req, item, asset)) && OneLine(text)
  {
    var schema := EffectiveSchema(req, item);
    var namespace, name := schema.OsNamespace(), asset.InstalledName(schema, req.table);
    InstalledPlain(asset, schema, req.table);
    NamespaceOnDisk(d, namespace);
    OnDiskPlain(d, ["EFI", namespace]);
    OnDiskKey(d, ["EFI", namespace]);
    hide HashedAsset.InstalledName, NamespaceDir, OnDisk, ReferenceKey, AssetText, Modern, Printable, Tree;
    var dir := NamespaceDir(d, namespace);
    ReferenceReadsBack(dir, name);
    KeyAppend(dir, name);
    KeyAppend(["EFI", namespace], name);
  }

  /** What reading an entry's configuration gives: its title, and its assets in order, and its command line. */
  lemma JobReadsBack(req: Request, d: Disk, item: Item)
    requires Tree(d) && Modern(req) && Printable(req) && item in req.items
    ensures var schema := EffectiveSchema(req, item);
            var lines := Split(JobOf(req, d, item).text, '\n');
            var initrds := Values(lines, "initrd");
            && Values(lines, "title") == [Title(schema, item.entry.inner.kernel.version)]
            && Values(lines, "options") == [item.options]
            && |Values(lines, "linux")| == 1
            && ReferenceKey(Values(lines, "linux")[0]) == Key(WantedDest(req, item, item.entry.image))
            && |initrds| == |item.entry.initrd|
            && forall i | 0 <= i < |initrds| ::
                 ReferenceKey(initrds[i]) == Key(WantedDest(req, item, item.entry.initrd[i]))
  {
    var schema := EffectiveSchema(req, item);
    var dir, version := NamespaceDir(d, schema.OsNamespace()), item.entry.inner.kernel.version;
    var image, initrd := item.entry.image, item.entry.initrd;
    var texts := InstalledTexts(schema, req.table, dir, initrd);
    var vmlinuz := AssetText(dir, image.InstalledName(schema, req.table));
    assert image in item.entry.Assets();
    AssetTextReads(req, d, item, image);
    forall i | 0 <= i < |initrd|
      ensures ReferenceKey(texts[i]) == Key(WantedDest(req, item, initrd[i])) && OneLine(texts[i])
    {
      assert initrd[i] in item.entry.Assets();
      AssetTextReads(req, d, item, initrd[i]);
    }
    assert JobOf(req, d, item).text == EntryText(Title(schema, version), vmlinuz, texts, item.options);
    hide JobOf, EntryText, Split, Values, AssetText, WantedDest, Title, ReferenceKey, NamespaceDir;
    EntryReadsBack(Title(schema, version), vmlinuz, texts, item.options);
  }

  /** An entry's configuration refers to exactly the entry's assets. */
  lemma JobReferences(req: Request, d: Disk, item: Item)
    requires Tree(d) && Modern(req) && Printable(req) && item in req.items
    ensures References(JobOf(req, d, item).text)
         == set asset | asset in item.entry.Assets() :: Key(WantedDest(req, item, asset))
  {
    hide JobOf, Split, Values, WantedDest, ReferenceKey, Tree, Modern, Printable, Title;
    JobReadsBack(req, d, item);
    var lines := Split(JobOf(req, d, item).text, '\n');
    var linux, initrds := Values(lines, "linux"), Values(lines, "initrd");
    var keys := set asset | asset in item.entry.Assets() :: Key(WantedDest(req, item, asset));
    forall k
      ensures k in References(JobOf(req, d, item).text) <==> k in keys
    {
      if k in References(JobOf(req, d, item).text) {
        var v :| v in linux + initrds && ReferenceKey(v) == k;
        if v in linux {
          assert v == linux[0];
          assert item.entry.image in item.entry.Assets();
        } else {
          var i :| 0 <= i < |initrds| && initrds[i] == v;
          assert item.entry.initrd[i] in item.entry.Assets();
        }
      }
      if k in keys {
        var asset :| asset in item.entry.Assets() && k == Key(WantedDest(req, item, asset));
        if asset != item.entry.image {
          var i :| 0 <= i < |item.entry.initrd| && item.entry.initrd[i] == asset;
          assert initrds[i] in linux + initrds;
        } else {
          assert linux[0] in linux + initrds;
        }
      }
    }
  }

  /**
   At the end of a complete run, reading back the configuration of any entry gives paths that, resolved on
   the volume, are files holding the sources of its image and of its initrds, in order.
   */
  lemma ConfNamesSources(req: Request, d: Disk, run: SyncRun, item: Item)
    requires Keeps(req, d) && CompleteRun(req, d, run) && Printable(req) && item in req.items
    ensures var f := Final(req, d, run);
            var k := Key(WantedConf(req, item));
            && IsFile(f, k)
            && var lines := Split(f[k].content, '\n');
               var linux, initrds := Values(lines, "linux"), Values(lines, "initrd");
               && |linux| == 1
               && Holds(f, ReferenceKey(linux[0]), ContentOf(req.host, SourceOf(item, item.entry.image)))
               && |initrds| == |item.entry.initrd|
               && forall i | 0 <= i < |initrds| ::
                    Holds(f, ReferenceKey(initrds[i]), ContentOf(req.host, SourceOf(item, item.entry.initrd[i])))
  {
    hide JobOf, Split, Values, WantedDest, ReferenceKey, Tree, Modern, Genuine, Agrees, AllKept, Printable, Title,
         CompleteRun, Final, WantedConf, Prepared, SameScaffold, Installs;
    PreparedIsTree(req, d, run);
    JobReadsBack(req, Prepared(req, d), item);
    ConfThere(req, d, run, item);
    assert item.entry.image in item.entry.Assets();
    AssetThere(req, d, run, item, item.entry.image);
    forall i | 0 <= i < |item.entry.initrd|
      ensures Holds(Final(req, d, run), Key(WantedDest(req, item, item.entry.initrd[i])),
                    ContentOf(req.host, SourceOf(item, item.entry.initrd[i])))
    {
      assert item.entry.initrd[i] in item.entry.Assets();
      AssetThere(req, d, run, item, item.entry.initrd[i]);
    }
  }
}
