/** Schemas, kernels and boot entries, and the identifiers entries are stored under. */
module Entries {
  import opened Text

  datatype OsRelease = OsRelease(name: string, id: string, prettyName: Option<string>)

  datatype OsInfo = OsInfo(id: string, name: string, display: string, formerIds: seq<string>)

  datatype Schema =
    | Legacy(osRelease: OsRelease, ns: string)
    | Blsforme(osRelease: OsRelease)
    | OsInfoBased(osInfo: OsInfo)
  {
    function OsName(): string {
      match this
      case Legacy(release, _) => release.name
      case Blsforme(release) => release.name
      case OsInfoBased(info) => info.name
    }

    function OsNamespace(): string {
      match this
      case Legacy(_, ns) => ns
      case Blsforme(release) => release.id
      case OsInfoBased(info) => info.id
    }

    function OsId(): string {
      match this
      case Legacy(release, _) => release.id
      case Blsforme(release) => release.id
      case OsInfoBased(info) => info.id
    }

    /** What the identifiers of entries start with. */
    function IdPrefix(): string {
      if Legacy? then osRelease.name else OsId()
    }

    function OsDisplayName(): Option<string> {
      match this
      case Legacy(release, _) => release.prettyName
      case Blsforme(release) => release.prettyName
      case OsInfoBased(info) => Some(info.display)
    }

    /** The namespaces whose kernel directories a sync cleans. */
    function CleanedNamespaces(): seq<string> {
      match this
      case OsInfoBased(info) => info.formerIds + [info.id]
      case _ => [OsNamespace()]
    }

    /** The prefixes of the loader configurations a sync cleans. */
    function CleanedPrefixes(): seq<string> {
      match this
      case OsInfoBased(info) => info.formerIds + [info.id]
      case Legacy(release, _) => [release.name]
      case Blsforme(_) => [OsId()]
    }
  }

  datatype AuxKind = Cmdline | VersionedInitRd | SharedInitRd | SystemMap | Config | BootJson

  datatype AuxFile = AuxFile(path: Path, kind: AuxKind)

  datatype Kernel = Kernel(
    version: string,
    image: Path,
    initrd: seq<AuxFile>,
    extras: seq<AuxFile>,
    variant: Option<string>
  )

  datatype Entry = Entry(
    kernel: Kernel,
    sysroot: Path,
    cmdline: seq<string>,
    stateId: Option<int>,
    schema: Option<Schema>
  )
  {
    function EffectiveSchema(global: Schema): Schema {
      if schema.Some? then schema.value else global
    }

    /** The identifier an entry's configuration file is named after. */
    function Id(global: Schema): string {
      (EffectiveSchema(global).IdPrefix() + "-") + (kernel.version + StateSuffix(stateId))
    }
  }

  function StateSuffix(state: Option<int>): string {
    if state.Some? then "-" + Signed(state.value) else ""
  }

  /** One state suffix can be read as the tail of another, so that a longer version absorbs the rest. */
  predicate Absorbs(s: Option<int>, t: Option<int>) {
    s != t && (s.None? || t.None? || s.value == -t.value)
  }

  lemma PrefixCancels(p: string, a: string, b: string)
    requires p + a == p + b
    ensures a == b
  {
    assert a == (p + a)[|p|..] && b == (p + b)[|p|..];
  }

  /** Two signed numbers render alike only when they are equal. */
  lemma SignedInjective(s: int, t: int)
    requires Signed(s) == Signed(t)
    ensures s == t
  {
    if s < 0 && t < 0 {
      assert Signed(s)[1..] == Decimal(-s) && Signed(t)[1..] == Decimal(-t);
      DecimalInjective(-s, -t);
    } else if s >= 0 && t >= 0 {
      DecimalInjective(s, t);
    } else {
      DecimalDigit(if s < 0 then t else s, 0);
    }
  }

  /** A dash inside a rendered number can only be its sign. */
  lemma DashIsSign(s: int, x: string, u: string)
    requires "-" + Signed(s) == x + u && x != "" && u != "" && u[0] == '-'
    ensures s < 0 && u == "-" + Decimal(-s)
  {
    var text := "-" + Signed(s);
    assert text[|x|] == '-' && text[|x|] == Signed(s)[|x| - 1];
    if s >= 0 {
      DecimalDigit(s, |x| - 1);
    } else if |x| > 1 {
      DecimalDigit(-s, |x| - 2);
    } else {
      assert u == text[1..];
    }
  }

  lemma SuffixTail(s: int, t: int, x: string)
    requires "-" + Signed(s) == x + ("-" + Signed(t)) && x != ""
    ensures s == -t
  {
    DashIsSign(s, x, "-" + Signed(t));
    PrefixCancels("-", Decimal(-s), Signed(t));
    DecimalDigit(-s, 0);
    DecimalInjective(t, -s);
  }

  /** When neither suffix absorbs the other, version and state are recovered from the text. */
  lemma SuffixesSeparate(v: string, s: Option<int>, w: string, t: Option<int>)
    requires v + StateSuffix(s) == w + StateSuffix(t)
    requires !Absorbs(s, t)
    requires |v| <= |w|
    ensures v == w && s == t
  {
    var text := v + StateSuffix(s);
    assert v == text[..|v|] && w == text[..|w|];
    if s == t {
      assert |v| == |w|;
    } else {
      var x := text[|v|..|w|];
      assert StateSuffix(s) == text[|v|..] == x + text[|w|..];
      assert text[|w|..] == StateSuffix(t);
      if x == "" {
        assert Signed(s.value) == StateSuffix(s)[1..] == StateSuffix(t)[1..] == Signed(t.value);
        SignedInjective(s.value, t.value);
      } else {
        SuffixTail(s.value, t.value, x);
      }
    }
  }

  /**
   Two different state identifiers lead to equal entry identifiers for some pair of versions exactly when
   one of them is absent or they are each other's negation.
   */
  lemma StatesCollide(s: Option<int>, t: Option<int>)
    requires s != t
    ensures Absorbs(s, t) <==> exists v: string, w: string :: v + StateSuffix(s) == w + StateSuffix(t)
  {
    if Absorbs(s, t) {
      var v, w := AbsorbedVersions(s, t);
      assert v + StateSuffix(s) == w + StateSuffix(t);
    } else {
      forall v: string, w: string
        ensures v + StateSuffix(s) != w + StateSuffix(t)
      {
        if v + StateSuffix(s) == w + StateSuffix(t) {
          if |v| <= |w| {
            SuffixesSeparate(v, s, w, t);
          } else {
            SuffixesSeparate(w, t, v, s);
          }
        }
      }
    }
  }

  lemma AbsorbedVersions(s: Option<int>, t: Option<int>) returns (v: string, w: string)
    requires Absorbs(s, t)
    ensures v + StateSuffix(s) == w + StateSuffix(t)
  {
    if s.None? {
      v, w := "6" + StateSuffix(t), "6";
    } else if t.None? {
      v, w := "6", "6" + StateSuffix(s);
    } else if s.value < 0 {
      v, w := "6", "6-";
      assert "6" + ("-" + ("-" + Decimal(t.value))) == "6-" + ("-" + Decimal(t.value));
    } else {
      v, w := "6-", "6";
      assert "6" + ("-" + ("-" + Decimal(s.value))) == "6-" + ("-" + Decimal(s.value));
    }
  }

  /**
   Entry identifiers under one operating system are injective in (version, state) as long as no state
   identifier absorbs another: in particular when all are absent, or all are present and not negative.
   */
  lemma IdsInjective(e: Entry, f: Entry, global: Schema)
    requires e.EffectiveSchema(global).IdPrefix() == f.EffectiveSchema(global).IdPrefix()
    requires !Absorbs(e.stateId, f.stateId)
    ensures e.Id(global) == f.Id(global) <==> e.kernel.version == f.kernel.version && e.stateId == f.stateId
  {
    if e.Id(global) == f.Id(global) {
      var v, w := e.kernel.version, f.kernel.version;
      PrefixCancels(e.EffectiveSchema(global).IdPrefix() + "-", v + StateSuffix(e.stateId), w + StateSuffix(f.stateId));
      if |v| <= |w| {
        SuffixesSeparate(v, e.stateId, w, f.stateId);
      } else {
        SuffixesSeparate(w, f.stateId, v, e.stateId);
      }
    }
  }

  /** Every identifier made under the global schema starts with one of the prefixes a sync cleans. */
  lemma IdIsCleaned(e: Entry, global: Schema)
    requires e.EffectiveSchema(global) == global
    ensures exists prefix | prefix in global.CleanedPrefixes() :: StartsWith(e.Id(global), prefix)
  {
    var prefix := global.IdPrefix();
    assert prefix == Last(global.CleanedPrefixes());
    assert prefix in global.CleanedPrefixes();
    assert e.Id(global)[..|prefix|] == prefix;
  }
}
