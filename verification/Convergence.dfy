/** What installing establishes: every entry's files are there, and no entry disturbs another. */
module Convergence {
  import opened Text
  import opened Fat
  import opened Volumes
  import opened AtomicCopy
  import opened Compare
  import opened Assets
  import opened SyncPlan
  import opened Wanted

  predicate Holds(d: Disk, k: Path, c: Content) {
    IsFile(d, k) && d[k].content == c
  }

  // ---------------------------------------------------------------- copies

  /** No copy of the pairs can put anything else than `c` under the key `k`. */
  ghost predicate Compatible(host: Host, pairs: seq<Pair>, k: Path, c: Content) {
    forall pair | pair in pairs ::
      pair.dest != [] && Key(Staging(pair.dest)) != k
      && (Key(pair.dest) == k ==> ContentOf(host, pair.source) == c)
  }

  lemma CopyHolds(d: Disk, content: Content, dest: Path, k: Path, c: Content)
    requires Tree(d) && dest != [] && AllCan(d, CopyOps(d, content, dest))
    ensures Holds(Run(d, CopyOps(d, content, dest)), Key(dest), content)
    ensures Holds(d, k, c) && k != Key(Staging(dest)) && (k == Key(dest) ==> c == content)
            ==> Holds(Run(d, CopyOps(d, content, dest)), k, c)
  {
    hide Run, AllCan, CopyOps, WithDirs, Staging, Tree;
    CopyRun(d, content, dest);
    WithDirsAt(d, Parent(dest), k);
  }

  /** The step from `n` copies to `n + 1`. */
  lemma NextCopy(host: Host, d: Disk, pairs: seq<Pair>, n: nat, k: Path, c: Content)
    requires Tree(d) && HaveDests(pairs) && n < |pairs| && AllCan(d, CopiesOps(host, d, pairs, n + 1))
    requires pairs[n].dest != []
    ensures AllCan(d, CopiesOps(host, d, pairs, n))
    ensures var e, f := Run(d, CopiesOps(host, d, pairs, n)), Run(d, CopiesOps(host, d, pairs, n + 1));
            && Holds(f, Key(pairs[n].dest), ContentOf(host, pairs[n].source))
            && (Holds(e, k, c) && Compatible(host, pairs, k, c) ==> Holds(f, k, c))
  {
    hide Run, AllCan, CopyOps, Holds, Tree;
    var before := CopiesOps(host, d, pairs, n);
    var pair := pairs[n];
    assert pair in pairs;
    var more := CopyOps(Run(d, before), ContentOf(host, pair.source), pair.dest);
    RunConcat(d, before, more);
    TreeRun(d, before);
    CopyHolds(Run(d, before), ContentOf(host, pair.source), pair.dest, k, c);
  }

  lemma {:induction false} CopiesKeep(host: Host, d: Disk, pairs: seq<Pair>, n: nat, k: Path, c: Content)
    requires Tree(d) && HaveDests(pairs) && n <= |pairs| && AllCan(d, CopiesOps(host, d, pairs, n))
    requires Holds(d, k, c) && Compatible(host, pairs, k, c)
    ensures Holds(Run(d, CopiesOps(host, d, pairs, n)), k, c)
  {
    hide Run, AllCan, CopyOps, Holds, Tree, Compatible;
    RunNone(d);
    if n > 0 {
      assert pairs[n - 1] in pairs;
      NextCopy(host, d, pairs, n - 1, k, c);
      CopiesKeep(host, d, pairs, n - 1, k, c);
    }
  }

  lemma {:induction false} CopiesEstablish(host: Host, d: Disk, pairs: seq<Pair>, n: nat, i: nat)
    requires Tree(d) && HaveDests(pairs) && i < n <= |pairs| && AllCan(d, CopiesOps(host, d, pairs, n))
    requires Compatible(host, pairs, Key(pairs[i].dest), ContentOf(host, pairs[i].source))
    ensures Holds(Run(d, CopiesOps(host, d, pairs, n)), Key(pairs[i].dest), ContentOf(host, pairs[i].source))
  {
    hide Run, AllCan, CopiesOps, Holds, Tree, Compatible;
    assert pairs[n - 1] in pairs;
    NextCopy(host, d, pairs, n - 1, Key(pairs[i].dest), ContentOf(host, pairs[i].source));
    if i < n - 1 {
      CopiesEstablish(host, d, pairs, n - 1, i);
    }
  }

  lemma ConfOpsHold(d: Disk, job: Job, k: Path, c: Content)
    requires Tree(d) && AllCan(d, ConfOps(d, job))
    ensures Holds(Run(d, ConfOps(d, job)), Key(job.conf), job.text)
    ensures Holds(d, k, c) && (k == Key(job.conf) ==> c == job.text) ==> Holds(Run(d, ConfOps(d, job)), k, c)
  {
    var dirs := if Exists(d, Key(EntriesDir(d))) then [] else MkDirs(EntriesDir(d));
    var write := Write(job.conf, job.text);
    RunConcat(d, dirs, [write]);
    var e := Run(d, dirs);
    RunOne(e, write);
    if dirs != [] {
      MkDirsRun(d, EntriesDir(d));
      WithDirsAt(d, EntriesDir(d), k);
    }
    hide Run, AllCan, MkDirs, WithDirs, EntriesDir;
  }

  // ---------------------------------------------------------------- one entry

  ghost predicate JobHolds(host: Host, d: Disk, job: Job) {
    && Holds(d, Key(job.conf), job.text)
    && forall pair | pair in job.changeset :: Holds(d, Key(pair.dest), ContentOf(host, pair.source))
  }

  /** Installing the job leaves alone a file that none of its parts would make different. */
  ghost predicate Spares(host: Host, job: Job, k: Path, c: Content) {
    Compatible(host, job.changeset, k, c) && (Key(job.conf) == k ==> job.text == c)
  }

  lemma InstallKeeps(host: Host, d: Disk, job: Job, picked: seq<bool>, k: Path, c: Content)
    requires Tree(d) && |picked| == |job.changeset| && HaveDests(job.changeset)
    requires AllCan(d, InstallOps(host, d, job, picked))
    requires Holds(d, k, c) && Spares(host, job, k, c)
    ensures Holds(Run(d, InstallOps(host, d, job, picked)), k, c)
  {
    hide Run, AllCan, Holds, CopiesOps, ConfOps;
    var needed := Select(job.changeset, picked);
    var copies := CopiesOps(host, d, needed, |needed|);
    var conf := ConfOps(Run(d, copies), job);
    RunConcat(d, copies, conf);
    TreeRun(d, copies);
    CopiesKeep(host, d, needed, |needed|, k, c);
    ConfOpsHold(Run(d, copies), job, k, c);
  }

  lemma {:induction false} Selected<T>(items: seq<T>, picked: seq<bool>, i: nat) returns (j: nat)
    requires |picked| == |items| && i < |items| && picked[i]
    ensures j < |Select(items, picked)| && Select(items, picked)[j] == items[i]
  {
    if i == 0 {
      j := 0;
    } else {
      j := Selected(items[1..], picked[1..], i - 1);
      j := j + if picked[0] then 1 else 0;
    }
  }

  lemma PairEstablished(host: Host, d: Disk, job: Job, picked: seq<bool>, pair: Pair)
    requires Tree(d) && HaveDests(job.changeset) && Justified(host, d, job.changeset, picked)
    requires var needed := Select(job.changeset, picked); AllCan(d, CopiesOps(host, d, needed, |needed|))
    requires pair in job.changeset && pair.source in host.files
    requires Compatible(host, job.changeset, Key(pair.dest), ContentOf(host, pair.source))
    ensures var needed := Select(job.changeset, picked);
            Holds(Run(d, CopiesOps(host, d, needed, |needed|)), Key(pair.dest), ContentOf(host, pair.source))
  {
    hide Run, AllCan, CopiesOps;
    var needed := Select(job.changeset, picked);
    var i :| 0 <= i < |job.changeset| && job.changeset[i] == pair;
    if picked[i] {
      var j := Selected(job.changeset, picked, i);
      CopiesEstablish(host, d, needed, |needed|, j);
    } else {
      assert !Differs(host, d, pair);
      CopiesKeep(host, d, needed, |needed|, Key(pair.dest), ContentOf(host, pair.source));
    }
  }

  // ---------------------------------------------------------------- entries do not disturb each other

  lemma RequestAssets(req: Request, item: Item, asset: HashedAsset)
    requires item in req.items && asset in item.entry.Assets()
    ensures asset in AllAssets(EntriesOf(req))
  {
    var i :| 0 <= i < |req.items| && req.items[i] == item;
    EntryAssets(EntriesOf(req), i, asset);
  }

  lemma {:induction false} EntryAssets(entries: seq<HashedEntry>, i: nat, asset: HashedAsset)
    requires i < |entries| && asset in entries[i].Assets()
    ensures asset in AllAssets(entries)
  {
    if i < |entries| - 1 {
      EntryAssets(entries[..|entries| - 1], i, asset);
    }
  }

  /** Assets that lead to the same key have the same content. */
  lemma SameKeySameContent(req: Request, item: Item, asset: HashedAsset, other: Item, b: HashedAsset)
    requires Tidy(req) && Genuine(req)
    requires item in req.items && asset in item.entry.Assets() && other in req.items && b in other.entry.Assets()
    requires Key(WantedDest(req, item, asset)) == Key(WantedDest(req, other, b))
    ensures WantedDest(req, item, asset) == WantedDest(req, other, b)
    ensures ContentOf(req.host, SourceOf(item, asset)) == ContentOf(req.host, SourceOf(other, b))
  {
    hide HashedAsset.InstalledName, IsWanted, Tabulates, AllAssets;
    WantedDestIsWanted(req, item, asset);
    WantedDestIsWanted(req, other, b);
    RequestAssets(req, item, asset);
    RequestAssets(req, other, b);
    var s, t := EffectiveSchema(req, item), EffectiveSchema(req, other);
    var m, n := asset.InstalledName(s, req.table), b.InstalledName(t, req.table);
    assert m == WantedDest(req, item, asset)[2..] && n == WantedDest(req, other, b)[2..];
    InstalledNamesBijective(AllAssets(EntriesOf(req)), req.table, asset, b, s, t);
    assert IsGenuine(req, item, asset) && IsGenuine(req, other, b);
  }

  /**
   Destinations correspond one to one to namespace, asset key and content: over all entries, two assets
   share a destination exactly when all three agree.
   */
  lemma DestinationsBijective(req: Request, item: Item, asset: HashedAsset, other: Item, b: HashedAsset)
    requires Modern(req) && Genuine(req)
    requires item in req.items && asset in item.entry.Assets() && other in req.items && b in other.entry.Assets()
    ensures WantedDest(req, item, asset) == WantedDest(req, other, b) <==>
              && EffectiveSchema(req, item).OsNamespace() == EffectiveSchema(req, other).OsNamespace()
              && asset.Key() == b.Key() && asset.hash == b.hash
  {
    hide HashedAsset.InstalledName, HashedAsset.Key, IsWanted, Tabulates, AllAssets;
    RequestAssets(req, item, asset);
    RequestAssets(req, other, b);
    var s, t := EffectiveSchema(req, item), EffectiveSchema(req, other);
    InstalledNamesBijective(AllAssets(EntriesOf(req)), req.table, asset, b, s, t);
    var v, w := WantedDest(req, item, asset), WantedDest(req, other, b);
    assert v[2..] == asset.InstalledName(s, req.table) && w[2..] == b.InstalledName(t, req.table);
    assert v[1] == s.OsNamespace() && w[1] == t.OsNamespace();
  }

  lemma ConfLength(req: Request, d: Disk, item: Item)
    requires Tree(d)
    ensures |JobOf(req, d, item).conf| == 3
    ensures Key(JobOf(req, d, item).conf) == Key(WantedConf(req, item))
  {
    ConfOnDisk(req, d, item);
    OnDiskKey(d, WantedConf(req, item));
    hide JobOf;
  }
}
