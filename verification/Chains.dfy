/** The walk over the devices that back a device, and the tip the root file system is probed on. */
module Chains {
  import opened Text

  /** What `class/block/<name>/slaves` is. */
  datatype Backing = NoSlaves | Unreadable | Slaves(names: seq<string>)

  datatype Problem = Canonicalize | InvalidDevice | Io

  /** The device paths that can be resolved, and the block devices the kernel lists. */
  datatype System = System(devfs: Path, canonical: map<Path, Path>, blocks: map<string, Backing>)

  function Under(devfs: Path, names: seq<string>): (r: seq<Path>)
    ensures |r| == |names|
    ensures forall i | 0 <= i < |names| :: r[i] == devfs + [names[i]]
  {
    seq(|names|, i requires 0 <= i < |names| => devfs + [names[i]])
  }

  /** The devices directly below a device. */
  function Backings(sys: System, device: Path): Result<seq<Path>, Problem> {
    if device !in sys.canonical then Err(Canonicalize)
    else
      var name := FileName(sys.canonical[device]);
      if name.None? then Err(InvalidDevice)
      else if name.value !in sys.blocks then Err(Canonicalize)
      else
        match sys.blocks[name.value]
        case NoSlaves => Ok([])
        case Unreadable => Err(Io)
        case Slaves(names) => Ok(Under(sys.devfs, names))
  }

  // ---------------------------------------------------------------- walking down

  predicate Edge(sys: System, p: Path, q: Path) {
    Backings(sys, p).Ok? && q in Backings(sys, p).value
  }

  /** A path resolves to a block device that the kernel lists under a name. */
  predicate IsBlock(sys: System, p: Path, name: string) {
    && p in sys.canonical && sys.canonical[p] != [] && Last(sys.canonical[p]) == name
    && name != "/" && name != ".." && name in sys.blocks
  }

  /** A device is backed, in order, by what its `slaves` lists; it has an error when that cannot be found or listed. */
  lemma BackedBy(sys: System, p: Path)
    ensures Backings(sys, p).Ok? <==> exists name :: IsBlock(sys, p, name) && !sys.blocks[name].Unreadable?
    ensures Backings(sys, p) == Err(Io) <==> exists name :: IsBlock(sys, p, name) && sys.blocks[name].Unreadable?
    ensures Backings(sys, p) == Err(InvalidDevice) <==> p in sys.canonical && FileName(sys.canonical[p]) == None
    ensures forall name | IsBlock(sys, p, name) && sys.blocks[name].Slaves? ::
              var names := sys.blocks[name].names;
              && Backings(sys, p).Ok? && |Backings(sys, p).value| == |names|
              && forall i | 0 <= i < |names| :: Backings(sys, p).value[i] == sys.devfs + [names[i]]
    ensures forall name | IsBlock(sys, p, name) && sys.blocks[name].NoSlaves? :: Backings(sys, p) == Ok([])
  {
    if p in sys.canonical && FileName(sys.canonical[p]).Some? {
      var name := FileName(sys.canonical[p]).value;
      assert IsBlock(sys, p, name) <==> name in sys.blocks;
    }
  }

  /** One device backs another when it is listed among the slaves of that. */
  lemma EdgesExactly(sys: System, p: Path, q: Path)
    ensures Edge(sys, p, q) <==>
              exists name, n | IsBlock(sys, p, name) && sys.blocks[name].Slaves? && n in sys.blocks[name].names ::
                q == sys.devfs + [n]
  {
    hide FileName;
    BackedBy(sys, p);
    if Edge(sys, p, q) {
      var name :| IsBlock(sys, p, name) && !sys.blocks[name].Unreadable?;
      var i :| 0 <= i < |Backings(sys, p).value| && Backings(sys, p).value[i] == q;
      assert sys.blocks[name].names[i] in sys.blocks[name].names;
    }
  }

  /** A walk downwards from `p`, without `p` itself. */
  predicate IsDescent(sys: System, p: Path, w: seq<Path>)
    decreases |w|
  {
    w == [] || (Edge(sys, p, w[0]) && IsDescent(sys, w[0], w[1..]))
  }

  ghost predicate Reaches(sys: System, p: Path, q: Path) {
    exists w: seq<Path> :: w != [] && IsDescent(sys, p, w) && Last(w) == q
  }

  ghost function Nodes(sys: System): set<Path> {
    set b, n | b in sys.blocks && sys.blocks[b].Slaves? && n in sys.blocks[b].names :: sys.devfs + [n]
  }

  /** No device backs itself, however indirectly. */
  ghost predicate Acyclic(sys: System) {
    forall q :: !Reaches(sys, q, q)
  }

  ghost function Below(sys: System, p: Path): set<Path> {
    set q | q in Nodes(sys) && Reaches(sys, p, q)
  }

  lemma EdgeReaches(sys: System, p: Path, q: Path)
    requires Edge(sys, p, q)
    ensures Reaches(sys, p, q) && q in Nodes(sys)
  {
    assert IsDescent(sys, q, [q][1..]);
    assert IsDescent(sys, p, [q]) && Last([q]) == q;
  }

  lemma ReachesOn(sys: System, p: Path, q: Path, r: Path)
    requires Edge(sys, p, q) && Reaches(sys, q, r)
    ensures Reaches(sys, p, r)
  {
    var w :| w != [] && IsDescent(sys, q, w) && Last(w) == r;
    var longer := [q] + w;
    assert longer[1..] == w;
    assert IsDescent(sys, p, longer) && Last(longer) == r;
  }

  lemma ReachesVia(sys: System, p: Path, r: Path) returns (q: Path)
    requires Reaches(sys, p, r)
    ensures Edge(sys, p, q) && (q == r || Reaches(sys, q, r))
  {
    var w :| w != [] && IsDescent(sys, p, w) && Last(w) == r;
    q := w[0];
    if |w| > 1 {
      assert IsDescent(sys, q, w[1..]) && Last(w[1..]) == r;
    }
  }

  /** The measure that makes the walk end: there is less below a device than below what it backs. */
  lemma BelowShrinks(sys: System, p: Path, q: Path)
    requires Acyclic(sys) && Edge(sys, p, q)
    ensures Below(sys, q) < Below(sys, p)
  {
    EdgeReaches(sys, p, q);
    forall r | r in Below(sys, q)
      ensures r in Below(sys, p)
    {
      ReachesOn(sys, p, q, r);
    }
    assert q in Below(sys, p) && q !in Below(sys, q);
  }

  // ---------------------------------------------------------------- all walks

  ghost predicate AllEdges(sys: System, p: Path, names: seq<Path>) {
    forall q | q in names :: Edge(sys, p, q)
  }

  ghost function Prefixed(q: Path, ws: seq<seq<Path>>): (r: seq<seq<Path>>)
    ensures |r| == |ws|
    ensures forall i | 0 <= i < |ws| :: r[i] == [q] + ws[i]
  {
    seq(|ws|, i requires 0 <= i < |ws| => [q] + ws[i])
  }

  /** Every walk down from a device, those through an earlier listed device first. */
  ghost function Walks(sys: System, p: Path): seq<seq<Path>>
    requires Acyclic(sys)
    decreases Below(sys, p), 1, 0
  {
    if Backings(sys, p).Ok? then WalksVia(sys, p, Backings(sys, p).value) else []
  }

  ghost function WalksVia(sys: System, p: Path, names: seq<Path>): seq<seq<Path>>
    requires Acyclic(sys) && AllEdges(sys, p, names)
    decreases Below(sys, p), 0, |names|
  {
    if names == [] then []
    else
      BelowShrinks(sys, p, Last(names));
      WalksVia(sys, p, names[..|names| - 1]) + [[Last(names)]] + Prefixed(Last(names), Walks(sys, Last(names)))
  }

  function TipOf(w: seq<Path>): Path {
    if w == [] then [] else Last(w)
  }

  function Tips(ws: seq<seq<Path>>): (r: seq<Path>)
    ensures |r| == |ws|
    ensures forall i | 0 <= i < |ws| :: r[i] == TipOf(ws[i])
  {
    seq(|ws|, i requires 0 <= i < |ws| => TipOf(ws[i]))
  }

  // ---------------------------------------------------------------- the program

  ghost predicate Resolves(sys: System, device: Path) {
    Backings(sys, device).Ok? && forall q | Reaches(sys, device, q) :: Backings(sys, q).Ok?
  }

  lemma ResolvesBelow(sys: System, p: Path, q: Path)
    requires Resolves(sys, p) && Edge(sys, p, q)
    ensures Resolves(sys, q)
  {
    EdgeReaches(sys, p, q);
    forall r | Reaches(sys, q, r)
      ensures Backings(sys, r).Ok?
    {
      ReachesOn(sys, p, q, r);
    }
  }

  lemma ResolvesAbove(sys: System, p: Path)
    requires Backings(sys, p).Ok? && forall q | q in Backings(sys, p).value :: Resolves(sys, q)
    ensures Resolves(sys, p)
  {
    forall r | Reaches(sys, p, r)
      ensures Backings(sys, r).Ok?
    {
      var q := ReachesVia(sys, p, r);
      assert Resolves(sys, q);
    }
  }

  /** The error is that of the device itself or of one below it. */
  ghost predicate Blames(sys: System, device: Path, error: Problem) {
    exists q :: (q == device || Reaches(sys, device, q)) && Backings(sys, q) == Err(error)
  }

  lemma BlamesAbove(sys: System, p: Path, q: Path, error: Problem)
    requires Edge(sys, p, q) && Blames(sys, q, error)
    ensures Blames(sys, p, error)
  {
    var r :| (r == q || Reaches(sys, q, r)) && Backings(sys, r) == Err(error);
    EdgeReaches(sys, p, q);
    if r != q {
      ReachesOn(sys, p, q, r);
    }
  }

  /**
   `get_device_chain`.  It ends on any acyclic system, fails exactly when some device it meets cannot be
   resolved, and otherwise lists the end of every walk down from the device.
   */
  method GetDeviceChain(sys: System, device: Path) returns (r: Result<seq<Path>, Problem>)
    requires Acyclic(sys)
    ensures r.Ok? <==> Resolves(sys, device)
    ensures r.Ok? ==> r.value == Tips(Walks(sys, device))
    ensures r.Err? ==> Blames(sys, device, r.error)
    decreases Below(sys, device)
  {
    hide Acyclic, Reaches, Walks, Tips, Below;
    var direct := Backings(sys, device);
    if direct.Err? {
      return Err(direct.error);
    }
    var names, ret := direct.value, [];
    assert AllEdges(sys, device, names);
    WalksStart(sys, device);
    for i := 0 to |names|
      invariant AllEdges(sys, device, names[..i])
      invariant ret == Tips(WalksVia(sys, device, names[..i]))
      invariant forall q | q in names[..i] :: Resolves(sys, q)
    {
      hide Resolves, Blames;
      var name := names[i];
      BelowShrinks(sys, device, name);
      var more := GetDeviceChain(sys, name);
      if more.Err? {
        UnresolvedBelow(sys, device, name);
        BlamesAbove(sys, device, name, more.error);
        return Err(more.error);
      }
      NextWalks(sys, device, names, i);
      ret := ret + [name] + more.value;
    }
    assert names[..|names|] == names;
    ResolvesAbove(sys, device);
    WalksAll(sys, device);
    r := Ok(ret);
  }

  lemma UnresolvedBelow(sys: System, p: Path, q: Path)
    requires Edge(sys, p, q) && !Resolves(sys, q)
    ensures !Resolves(sys, p)
  {
    hide Resolves;
    if Resolves(sys, p) {
      ResolvesBelow(sys, p, q);
    }
  }

  lemma WalksStart(sys: System, p: Path)
    requires Acyclic(sys) && Backings(sys, p).Ok?
    ensures var names := Backings(sys, p).value;
            names[..0] == [] && AllEdges(sys, p, names[..0]) && Tips(WalksVia(sys, p, names[..0])) == []
  {
  }

  lemma WalksAll(sys: System, p: Path)
    requires Acyclic(sys) && Backings(sys, p).Ok?
    ensures AllEdges(sys, p, Backings(sys, p).value) && Walks(sys, p) == WalksVia(sys, p, Backings(sys, p).value)
  {
  }

  lemma NextWalks(sys: System, p: Path, names: seq<Path>, i: nat)
    requires Acyclic(sys) && i < |names| && AllEdges(sys, p, names)
    ensures AllEdges(sys, p, names[..i]) && AllEdges(sys, p, names[..i + 1])
    ensures Tips(WalksVia(sys, p, names[..i + 1]))
         == Tips(WalksVia(sys, p, names[..i])) + [names[i]] + Tips(Walks(sys, names[i]))
  {
    hide Acyclic, Edge;
    assert names[..i + 1][..i] == names[..i] && Last(names[..i + 1]) == names[i];
    var q := names[i];
    var front := WalksVia(sys, p, names[..i]);
    BelowShrinks(sys, p, q);
    var below := Walks(sys, q);
    hide WalksVia, Walks;
    NonEmptyWalks(sys, q);
    TipsOfStep(front, q, below);
  }

  lemma TipsOfStep(front: seq<seq<Path>>, q: Path, below: seq<seq<Path>>)
    requires forall w | w in below :: w != []
    ensures Tips(front + [[q]] + Prefixed(q, below)) == Tips(front) + [q] + Tips(below)
  {
    forall i | 0 <= i < |below|
      ensures TipOf(Prefixed(q, below)[i]) == TipOf(below[i])
    {
      assert below[i] in below;
    }
  }

  // ---------------------------------------------------------------- what the walks are

  lemma {:induction false} NonEmptyWalks(sys: System, p: Path)
    requires Acyclic(sys)
    ensures forall w | w in Walks(sys, p) :: w != []
  {
    forall w | w in Walks(sys, p)
      ensures w != []
    {
      WalksExactly(sys, p, w);
    }
  }

  /** The walks are exactly the nonempty descents. */
  lemma {:induction false} WalksExactly(sys: System, p: Path, w: seq<Path>)
    requires Acyclic(sys)
    ensures w in Walks(sys, p) <==> w != [] && IsDescent(sys, p, w)
    decreases Below(sys, p), 1, 0
  {
    hide Acyclic, Below;
    if Backings(sys, p).Ok? {
      WalksViaExactly(sys, p, Backings(sys, p).value, w);
    }
  }

  lemma {:induction false} WalksViaExactly(sys: System, p: Path, names: seq<Path>, w: seq<Path>)
    requires Acyclic(sys) && AllEdges(sys, p, names)
    ensures w in WalksVia(sys, p, names) <==> w != [] && w[0] in names && IsDescent(sys, w[0], w[1..])
    decreases Below(sys, p), 0, |names|
  {
    hide Acyclic, Below, Edge, Reaches;
    if names != [] {
      var front, q := names[..|names| - 1], Last(names);
      assert names == front + [q];
      WalksViaExactly(sys, p, front, w);
      BelowShrinks(sys, p, q);
      var below := Walks(sys, q);
      if w != [] {
        WalksExactly(sys, q, w[1..]);
      }
      hide Walks, IsDescent;
      InPrefixed(q, below, w);
      DescentNone(sys, q);
    }
  }

  lemma DescentNone(sys: System, p: Path)
    ensures IsDescent(sys, p, [])
  {
  }

  lemma InPrefixed(q: Path, ws: seq<seq<Path>>, w: seq<Path>)
    ensures w in Prefixed(q, ws) <==> w != [] && w[0] == q && w[1..] in ws
    ensures w == [q] <==> w != [] && w[0] == q && w[1..] == []
  {
    if w in Prefixed(q, ws) {
      var i :| 0 <= i < |ws| && Prefixed(q, ws)[i] == w;
      assert w[1..] == ws[i];
    }
    if w != [] && w[0] == q {
      assert w == [q] + w[1..];
      if w[1..] in ws {
        var i :| 0 <= i < |ws| && ws[i] == w[1..];
        assert Prefixed(q, ws)[i] == w;
      }
    }
  }

  ghost predicate Distinct<T>(s: seq<T>) {
    forall i, j | 0 <= i < j < |s| :: s[i] != s[j]
  }

  /** A directory lists a name once. */
  ghost predicate ListsOnce(sys: System) {
    forall b | b in sys.blocks && sys.blocks[b].Slaves? :: Distinct(sys.blocks[b].names)
  }

  lemma BackingsDistinct(sys: System, p: Path)
    requires ListsOnce(sys) && Backings(sys, p).Ok?
    ensures Distinct(Backings(sys, p).value)
  {
    var block := sys.blocks[FileName(sys.canonical[p]).value];
    if block.Slaves? {
      var names, r := block.names, Backings(sys, p).value;
      forall i, j | 0 <= i < j < |r|
        ensures r[i] != r[j]
      {
        assert Last(r[i]) == names[i] && Last(r[j]) == names[j];
      }
    }
  }

  /** Each walk is listed once. */
  lemma {:induction false} WalksOnce(sys: System, p: Path)
    requires Acyclic(sys) && ListsOnce(sys)
    ensures Distinct(Walks(sys, p))
    decreases Below(sys, p), 1, 0
  {
    hide Acyclic, Below;
    if Backings(sys, p).Ok? {
      var names := Backings(sys, p).value;
      BackingsDistinct(sys, p);
      WalksViaOnce(sys, p, names);
    }
  }

  lemma {:induction false} WalksViaOnce(sys: System, p: Path, names: seq<Path>)
    requires Acyclic(sys) && ListsOnce(sys) && AllEdges(sys, p, names) && Distinct(names)
    ensures Distinct(WalksVia(sys, p, names))
    decreases Below(sys, p), 0, |names|
  {
    hide Acyclic, Below, ListsOnce, Edge;
    if names != [] {
      var front, q := names[..|names| - 1], Last(names);
      BelowShrinks(sys, p, q);
      WalksViaOnce(sys, p, front);
      WalksOnce(sys, q);
      NonEmptyWalks(sys, q);
      forall w | w in WalksVia(sys, p, front)
        ensures w != [] && w[0] != q
      {
        WalksViaExactly(sys, p, front, w);
      }
      DistinctStep(WalksVia(sys, p, front), q, Walks(sys, q));
    }
  }

  lemma DistinctStep(front: seq<seq<Path>>, q: Path, below: seq<seq<Path>>)
    requires Distinct(front) && Distinct(below)
    requires forall w | w in front :: w != [] && w[0] != q
    requires forall w | w in below :: w != []
    ensures Distinct(front + [[q]] + Prefixed(q, below))
  {
    var all, n := front + [[q]] + Prefixed(q, below), |front|;
    forall i, j | 0 <= i < j < |all|
      ensures all[i] != all[j]
    {
      if i < n {
        assert all[i] == front[i] && front[i] in front;
        assert j >= n ==> all[j][0] == q;
      } else {
        assert all[j] == [q] + below[j - n - 1] && below[j - n - 1] in below;
        assert all[j][1..] == below[j - n - 1];
        if i > n {
          assert all[i] == [q] + below[i - n - 1];
          assert all[i][1..] == below[i - n - 1];
        }
      }
    }
  }

  /** The devices listed are exactly those that can be reached. */
  lemma ChainElements(sys: System, p: Path, q: Path)
    requires Acyclic(sys)
    ensures q in Tips(Walks(sys, p)) <==> Reaches(sys, p, q)
  {
    hide Walks, Acyclic;
    var ws := Walks(sys, p);
    if q in Tips(ws) {
      var i :| 0 <= i < |ws| && Tips(ws)[i] == q;
      WalksExactly(sys, p, ws[i]);
    }
    if Reaches(sys, p, q) {
      var w :| w != [] && IsDescent(sys, p, w) && Last(w) == q;
      WalksExactly(sys, p, w);
      var i :| 0 <= i < |ws| && ws[i] == w;
      assert Tips(ws)[i] == q;
    }
  }

  // ---------------------------------------------------------------- the tip

  /** Every device with backings is directly followed by the first of them. */
  ghost predicate Followed(sys: System, s: seq<Path>) {
    forall i | 0 <= i < |s| && Backings(sys, s[i]).Ok? && Backings(sys, s[i]).value != [] ::
      i + 1 < |s| && s[i + 1] == Backings(sys, s[i]).value[0]
  }

  lemma FollowedConcat(sys: System, a: seq<Path>, b: seq<Path>)
    requires Followed(sys, a) && Followed(sys, b)
    ensures Followed(sys, a + b)
  {
    hide Backings;
    var s := a + b;
    forall i | 0 <= i < |s| && Backings(sys, s[i]).Ok? && Backings(sys, s[i]).value != []
      ensures i + 1 < |s| && s[i + 1] == Backings(sys, s[i]).value[0]
    {
      if i < |a| {
        assert s[i] == a[i];
      } else {
        assert s[i] == b[i - |a|];
      }
    }
  }

  lemma {:induction false} ChainFollowed(sys: System, p: Path)
    requires Acyclic(sys)
    ensures Followed(sys, [p] + Tips(Walks(sys, p)))
    decreases Below(sys, p), 1, 0
  {
    hide Acyclic, Below;
    var chain := Tips(Walks(sys, p));
    if Backings(sys, p).Ok? {
      var names := Backings(sys, p).value;
      ChainViaFollowed(sys, p, names);
      if names != [] {
        FirstWalk(sys, p, names);
      }
      hide Walks, WalksVia, Backings, Tips, Edge;
      var s := [p] + chain;
      forall i | 0 <= i < |s| && Backings(sys, s[i]).Ok? && Backings(sys, s[i]).value != []
        ensures i + 1 < |s| && s[i + 1] == Backings(sys, s[i]).value[0]
      {
        if i > 0 {
          assert s[i] == chain[i - 1];
        }
      }
    }
  }

  lemma {:induction false} ChainViaFollowed(sys: System, p: Path, names: seq<Path>)
    requires Acyclic(sys) && AllEdges(sys, p, names)
    ensures Followed(sys, Tips(WalksVia(sys, p, names)))
    decreases Below(sys, p), 0, |names|
  {
    if names != [] {
      var n := |names| - 1;
      BelowShrinks(sys, p, names[n]);
      hide Acyclic, Below, Followed, Backings, Edge, Reaches, Walks, Tips, WalksVia;
      assert names[..n + 1] == names;
      ChainViaFollowed(sys, p, names[..n]);
      ChainFollowed(sys, names[n]);
      LastFollowed(sys, p, names, n);
    }
  }

  lemma LastFollowed(sys: System, p: Path, names: seq<Path>, n: nat)
    requires Acyclic(sys) && AllEdges(sys, p, names) && |names| == n + 1
    requires Followed(sys, Tips(WalksVia(sys, p, names[..n])))
    requires Followed(sys, [names[n]] + Tips(Walks(sys, names[n])))
    ensures Followed(sys, Tips(WalksVia(sys, p, names)))
  {
    hide Acyclic, Followed, Backings, Reaches, Walks, Tips, WalksVia;
    assert names[..n + 1] == names;
    NextWalks(sys, p, names, n);
    var before, rest := Tips(WalksVia(sys, p, names[..n])), [names[n]] + Tips(Walks(sys, names[n]));
    FollowedConcat(sys, before, rest);
    assert before + [names[n]] + Tips(Walks(sys, names[n])) == before + rest;
  }

  lemma {:induction false} FirstWalk(sys: System, p: Path, names: seq<Path>)
    requires Acyclic(sys) && AllEdges(sys, p, names) && names != []
    ensures WalksVia(sys, p, names) != [] && WalksVia(sys, p, names)[0] == [names[0]]
  {
    hide Acyclic, Edge;
    if |names| > 1 {
      FirstWalk(sys, p, names[..|names| - 1]);
    }
  }

  /** The last device of the list, the device itself included, has nothing below it. */
  lemma TipIsBare(sys: System, device: Path)
    requires Acyclic(sys) && Resolves(sys, device)
    ensures Backings(sys, Last([device] + Tips(Walks(sys, device)))) == Ok([])
  {
    hide Backings, Walks, Tips, Acyclic;
    var s := [device] + Tips(Walks(sys, device));
    ChainFollowed(sys, device);
    var tip := s[|s| - 1];
    if tip != device {
      assert tip in Tips(Walks(sys, device));
      ChainElements(sys, device, tip);
    }
    assert Backings(sys, tip).Ok?;
  }

  /** How `get_rootfs_device` divides the chain: the tip it probes and the devices above it, in order. */
  method RootfsTip(sys: System, device: Path) returns (r: Result<(Path, seq<Path>), Problem>)
    requires Acyclic(sys)
    ensures r.Ok? <==> Resolves(sys, device)
    ensures r.Ok? ==> Backings(sys, r.value.0) == Ok([])
                      && r.value.1 + [r.value.0] == [device] + Tips(Walks(sys, device))
  {
    hide Backings, Walks, Tips, Acyclic, Resolves;
    var chain := GetDeviceChain(sys, device);
    if chain.Err? {
      return Err(chain.error);
    }
    TipIsBare(sys, device);
    var custodials := [device];
    custodials := custodials + chain.value;
    var tip := Last(custodials);
    custodials := custodials[..|custodials| - 1];
    r := Ok((tip, custodials));
  }
}
