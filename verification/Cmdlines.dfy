/** The kernel command line: `/etc` snippets and masks, kernel snippets, and their merge. */
module Cmdlines {
  import opened Text
  import opened Compare
  import opened Entries

  datatype GlobalCmdline = GlobalCmdline(
    root: seq<string>,             // the root device arguments and "rw"
    etcSnippets: seq<string>,
    etcExclusions: seq<string>
  )

  // ---------------------------------------------------------------- snippets

  predicate IsSpace(c: char) {
    c in {' ', '\t', '\n', '\r', '\U{0B}', '\U{0C}', '\U{85}', '\U{A0}', '\U{1680}', '\U{2028}', '\U{2029}',
          '\U{202F}', '\U{205F}', '\U{3000}'} || '\U{2000}' <= c <= '\U{200A}'
  }

  function Trim(s: string): (r: string)
    ensures forall c | c in r :: c in s
    decreases |s|
  {
    if s == [] then s
    else if IsSpace(s[0]) then Trim(s[1..])
    else if IsSpace(Last(s)) then Trim(s[..|s| - 1])
    else s
  }

  /** `str::lines`: a final newline does not start another line. */
  function Lines(s: string): seq<string> {
    var parts := Split(s, '\n');
    if Last(parts) == "" then parts[..|parts| - 1] else parts
  }

  function KeptLines(lines: seq<string>): seq<string> {
    if lines == [] then []
    else
      var line := Trim(lines[0]);
      (if StartsWith(line, "#") then [] else [line]) + KeptLines(lines[1..])
  }

  function Spaced(parts: seq<string>): string {
    if parts == [] then "" else Join(parts, ' ')
  }

  /** `cmdline_snippet` on the contents of a file. */
  function Snippet(content: string): string {
    Spaced(KeptLines(Lines(content)))
  }

  /** The snippet of a file, if the file can be read. */
  function Read(host: Host, path: Path): seq<string> {
    if path in host.files then [Snippet(host.files[path])] else []
  }

  // ---------------------------------------------------------------- where snippets live

  function EtcDir(root: Path): Path {
    root + ["etc", "kernel", "cmdline.d"]
  }

  function VendorDir(sysroot: Path): Path {
    sysroot + ["usr", "lib", "kernel", "cmdline.d"]
  }

  function Listing(host: Host, dir: Path): seq<string> {
    if dir in host.listing then host.listing[dir] else []
  }

  predicate IsMask(host: Host, dir: Path, name: string) {
    Extension(name) == Some("cmdline") && dir + [name] in host.nullLinks
  }

  /** The names that links to /dev/null in `/etc` mask. */
  function EtcMasks(host: Host, dir: Path, names: seq<string>): seq<string> {
    if names == [] then []
    else EtcMasks(host, dir, Parent(names)) + if IsMask(host, dir, Last(names)) then [Last(names)] else []
  }

  function EtcSnippets(host: Host, dir: Path, names: seq<string>): seq<string> {
    if names == [] then []
    else
      EtcSnippets(host, dir, Parent(names))
      + if Extension(Last(names)) == Some("cmdline") && !IsMask(host, dir, Last(names))
        then Read(host, dir + [Last(names)]) else []
  }

  /** The snippets shipped with a kernel, without the excluded names. */
  function OwnSnippets(host: Host, sysroot: Path, extras: seq<AuxFile>, exclusions: seq<string>): seq<string> {
    if extras == [] then []
    else
      var extra := Last(extras);
      OwnSnippets(host, sysroot, extras[..|extras| - 1], exclusions)
      + if extra.kind.Cmdline? && FileName(extra.path).Some? && FileName(extra.path).value !in exclusions
        then Read(host, JoinPath(sysroot, extra.path)) else []
  }

  /** The snippets of the vendor directory, without the excluded names. */
  function VendorSnippets(host: Host, dir: Path, names: seq<string>, exclusions: seq<string>): seq<string> {
    if names == [] then []
    else
      VendorSnippets(host, dir, Parent(names), exclusions)
      + if FileName(dir + [Last(names)]).Some? && Last(names) !in exclusions
        then Read(host, dir + [Last(names)]) else []
  }

  /** What `/etc` contributes: the snippets to add and the names to mask. */
  function GlobalOf(host: Host, root: Path, rootArgs: seq<string>): GlobalCmdline {
    var dir := EtcDir(root);
    GlobalCmdline(
      rootArgs, EtcSnippets(host, dir, Listing(host, dir)), EtcMasks(host, dir, Listing(host, dir)))
  }

  /** What the kernel and then the vendor directory contribute. */
  function KernelCmdline(host: Host, sysroot: Path, kernel: Kernel, exclusions: seq<string>): seq<string> {
    var dir := VendorDir(sysroot);
    OwnSnippets(host, sysroot, kernel.extras, exclusions)
    + VendorSnippets(host, dir, Listing(host, dir), exclusions)
  }

  /** `full_cmdline`: root, kernel, entry, then `/etc`. */
  function FullCmdline(host: Host, global: GlobalCmdline, entry: Entry): string {
    Spaced(global.root + KernelCmdline(host, entry.sysroot, entry.kernel, global.etcExclusions)
           + entry.cmdline + global.etcSnippets)
  }

  // ---------------------------------------------------------------- the loops

  /** `load_etc_cmdline`. */
  method LoadEtcCmdline(host: Host, root: Path) returns (snippets: seq<string>, exclusions: seq<string>)
    ensures forall rootArgs :: GlobalCmdline(rootArgs, snippets, exclusions) == GlobalOf(host, root, rootArgs)
  {
    var dir := EtcDir(root);
    var names := Listing(host, dir);
    snippets, exclusions := [], [];
    for i := 0 to |names|
      invariant snippets == EtcSnippets(host, dir, names[..i])
      invariant exclusions == EtcMasks(host, dir, names[..i])
    {
      assert Parent(names[..i + 1]) == names[..i];
      var path := dir + [names[i]];
      if Extension(names[i]) == Some("cmdline") {
        if path in host.nullLinks {
          exclusions := exclusions + [names[i]];
        } else {
          snippets := snippets + Read(host, path);
        }
      }
    }
    assert names[..|names|] == names;
  }

  /** The first half of `load_kernel_cmdline`: the snippets of the kernel itself. */
  method LoadOwnSnippets(host: Host, sysroot: Path, extras: seq<AuxFile>, exclusions: seq<string>)
    returns (snippets: seq<string>)
    ensures snippets == OwnSnippets(host, sysroot, extras, exclusions)
  {
    snippets := [];
    for i := 0 to |extras|
      invariant snippets == OwnSnippets(host, sysroot, extras[..i], exclusions)
    {
      assert extras[..i + 1][..i] == extras[..i];
      var path := extras[i].path;
      if extras[i].kind.Cmdline? && FileName(path).Some? && FileName(path).value !in exclusions {
        snippets := snippets + Read(host, JoinPath(sysroot, path));
      }
    }
    assert extras[..|extras|] == extras;
  }

  /** The second half: the snippets of the vendor directory. */
  method LoadVendorSnippets(host: Host, dir: Path, exclusions: seq<string>) returns (snippets: seq<string>)
    ensures snippets == VendorSnippets(host, dir, Listing(host, dir), exclusions)
  {
    snippets := [];
    var names := Listing(host, dir);
    for i := 0 to |names|
      invariant snippets == VendorSnippets(host, dir, names[..i], exclusions)
    {
      assert Parent(names[..i + 1]) == names[..i];
      if FileName(dir + [names[i]]).Some? && names[i] !in exclusions {
        snippets := snippets + Read(host, dir + [names[i]]);
      }
    }
    assert names[..|names|] == names;
  }

  /** `load_kernel_cmdline`. */
  method LoadKernelCmdline(host: Host, sysroot: Path, kernel: Kernel, exclusions: seq<string>)
    returns (snippets: seq<string>)
    ensures snippets == KernelCmdline(host, sysroot, kernel, exclusions)
  {
    var own := LoadOwnSnippets(host, sysroot, kernel.extras, exclusions);
    var vendor := LoadVendorSnippets(host, VendorDir(sysroot), exclusions);
    snippets := own + vendor;
  }

  /** `full_cmdline`. */
  method MergeCmdline(host: Host, global: GlobalCmdline, entry: Entry) returns (merged: string)
    ensures merged == FullCmdline(host, global, entry)
  {
    var kernelCmdline := LoadKernelCmdline(host, entry.sysroot, entry.kernel, global.etcExclusions);
    merged := Spaced(global.root + kernelCmdline + entry.cmdline + global.etcSnippets);
  }

  // ---------------------------------------------------------------- masking is deletion

  /** The names that are not excluded, in order. */
  function Surviving(names: seq<string>, exclusions: seq<string>): seq<string> {
    if names == [] then []
    else Surviving(Parent(names), exclusions) + if Last(names) in exclusions then [] else [Last(names)]
  }

  predicate IsMaskedExtra(extra: AuxFile, exclusions: seq<string>) {
    extra.kind.Cmdline? && FileName(extra.path).Some? && FileName(extra.path).value in exclusions
  }

  function SurvivingExtras(extras: seq<AuxFile>, exclusions: seq<string>): seq<AuxFile> {
    if extras == [] then []
    else
      SurvivingExtras(extras[..|extras| - 1], exclusions)
      + if IsMaskedExtra(Last(extras), exclusions) then [] else [Last(extras)]
  }

  /** The directory entries of `/etc` other than the masks. */
  function Remaining(host: Host, dir: Path, names: seq<string>): seq<string> {
    if names == [] then []
    else Remaining(host, dir, Parent(names)) + if IsMask(host, dir, Last(names)) then [] else [Last(names)]
  }

  /** The host after deleting the masks of `/etc` and the vendor snippets they name. */
  function Deleted(host: Host, root: Path, sysroot: Path, exclusions: seq<string>): Host {
    var etc, vendor := EtcDir(root), VendorDir(sysroot);
    host.(listing := map dir | dir in host.listing ::
            if dir == etc then Remaining(host, etc, host.listing[dir])
            else if dir == vendor then Surviving(host.listing[dir], exclusions)
            else host.listing[dir])
  }

  lemma {:induction false} RemainingEtc(host: Host, later: Host, dir: Path, names: seq<string>)
    requires later.nullLinks == host.nullLinks && later.files == host.files
    ensures EtcSnippets(later, dir, Remaining(host, dir, names)) == EtcSnippets(host, dir, names)
  {
    if names != [] {
      var front := Remaining(host, dir, Parent(names));
      RemainingEtc(host, later, dir, Parent(names));
      if IsMask(host, dir, Last(names)) {
        assert Remaining(host, dir, names) == front;
      } else {
        assert Parent(front + [Last(names)]) == front;
      }
    }
  }

  lemma {:induction false} NoMasksRemain(host: Host, later: Host, dir: Path, names: seq<string>)
    requires later.nullLinks == host.nullLinks
    ensures |EtcMasks(later, dir, Remaining(host, dir, names))| == 0
  {
    if names != [] {
      NoMasksRemain(host, later, dir, Parent(names));
      if !IsMask(host, dir, Last(names)) {
        var front, name := Remaining(host, dir, Parent(names)), Last(names);
        var kept := front + [name];
        assert Parent(kept) == front && Last(kept) == name;
        assert Remaining(host, dir, names) == kept;
        assert !IsMask(later, dir, name);
        assert |EtcMasks(later, dir, kept)| == |EtcMasks(later, dir, front)|;
      } else {
        var front := Remaining(host, dir, Parent(names));
        assert front + [] == front;
        assert Remaining(host, dir, names) == front;
      }
    }
  }

  lemma {:induction false} SurvivingVendor(host: Host, later: Host, dir: Path, names: seq<string>,
                                           exclusions: seq<string>)
    requires later.files == host.files
    ensures VendorSnippets(later, dir, Surviving(names, exclusions), []) == VendorSnippets(host, dir, names, exclusions)
  {
    if names != [] {
      var front := Surviving(Parent(names), exclusions);
      SurvivingVendor(host, later, dir, Parent(names), exclusions);
      if Last(names) in exclusions {
        assert Surviving(names, exclusions) == front;
        assert VendorSnippets(host, dir, names, exclusions) == VendorSnippets(host, dir, Parent(names), exclusions);
      } else {
        assert Parent(front + [Last(names)]) == front;
      }
    }
  }

  lemma {:induction false} SurvivingOwn(host: Host, later: Host, sysroot: Path, extras: seq<AuxFile>,
                                        exclusions: seq<string>)
    requires later.files == host.files
    ensures OwnSnippets(later, sysroot, SurvivingExtras(extras, exclusions), [])
         == OwnSnippets(host, sysroot, extras, exclusions)
  {
    if extras != [] {
      var front, extra := SurvivingExtras(extras[..|extras| - 1], exclusions), Last(extras);
      SurvivingOwn(host, later, sysroot, extras[..|extras| - 1], exclusions);
      if IsMaskedExtra(extra, exclusions) {
        assert SurvivingExtras(extras, exclusions) == front;
      } else {
        assert (front + [extra])[..|front|] == front;
      }
    }
  }

  /**
   Masking a snippet with a link to /dev/null is the same as deleting it: the command line equals the one
   computed, with no masks at all, on a system without the masks and without the snippets they name.
   */
  lemma MaskingIsDeletion(host: Host, root: Path, rootArgs: seq<string>, entry: Entry)
    ensures var global := GlobalOf(host, root, rootArgs);
            var names := global.etcExclusions;
            var later := Deleted(host, root, entry.sysroot, names);
            var stripped := entry.(kernel := entry.kernel.(extras := SurvivingExtras(entry.kernel.extras, names)));
            && GlobalOf(later, root, rootArgs).etcExclusions == []
            && FullCmdline(later, GlobalOf(later, root, rootArgs), stripped) == FullCmdline(host, global, entry)
  {
    var global := GlobalOf(host, root, rootArgs);
    var names := global.etcExclusions;
    var later := Deleted(host, root, entry.sysroot, names);
    var etc, vendor := EtcDir(root), VendorDir(entry.sysroot);
    assert etc[|etc| - 3] == "etc" && vendor[|vendor| - 3] == "lib";
    assert Listing(later, etc) == Remaining(host, etc, Listing(host, etc));
    assert Listing(later, vendor) == Surviving(Listing(host, vendor), names);
    RemainingEtc(host, later, etc, Listing(host, etc));
    NoMasksRemain(host, later, etc, Listing(host, etc));
    SurvivingVendor(host, later, vendor, Listing(host, vendor), names);
    SurvivingOwn(host, later, entry.sysroot, entry.kernel.extras, names);
  }

  // ---------------------------------------------------------------- one line

  lemma {:induction false} SplitPieces(s: string, c: char)
    ensures forall p | p in Split(s, c) :: c !in p
  {
    if s != [] {
      SplitPieces(s[1..], c);
    }
  }

  lemma {:induction false} KeptLinesFree(lines: seq<string>)
    requires forall line | line in lines :: '\n' !in line
    ensures forall line | line in KeptLines(lines) :: '\n' !in line
  {
    if lines != [] {
      assert lines[0] in lines;
      assert forall line | line in lines[1..] :: line in lines;
      KeptLinesFree(lines[1..]);
    }
  }

  lemma {:induction false} SpacedFree(parts: seq<string>)
    requires forall p | p in parts :: '\n' !in p
    ensures '\n' !in Spaced(parts)
  {
    if |parts| > 1 {
      assert forall p | p in parts[1..] :: p in parts;
      SpacedFree(parts[1..]);
    }
  }

  /** A snippet is one line, whatever its file holds. */
  lemma SnippetIsOneLine(content: string)
    ensures '\n' !in Snippet(content)
  {
    SplitPieces(content, '\n');
    assert forall line | line in Lines(content) :: line in Split(content, '\n');
    KeptLinesFree(Lines(content));
    SpacedFree(KeptLines(Lines(content)));
  }

  lemma {:induction false} EtcIsOneLine(host: Host, dir: Path, names: seq<string>)
    ensures forall s | s in EtcSnippets(host, dir, names) :: '\n' !in s
  {
    if names != [] {
      EtcIsOneLine(host, dir, Parent(names));
      ReadIsOneLine(host, dir + [Last(names)]);
    }
  }

  lemma {:induction false} VendorIsOneLine(host: Host, dir: Path, names: seq<string>, exclusions: seq<string>)
    ensures forall s | s in VendorSnippets(host, dir, names, exclusions) :: '\n' !in s
  {
    if names != [] {
      VendorIsOneLine(host, dir, Parent(names), exclusions);
      ReadIsOneLine(host, dir + [Last(names)]);
    }
  }

  lemma {:induction false} OwnIsOneLine(host: Host, sysroot: Path, extras: seq<AuxFile>, exclusions: seq<string>)
    ensures forall s | s in OwnSnippets(host, sysroot, extras, exclusions) :: '\n' !in s
  {
    if extras != [] {
      OwnIsOneLine(host, sysroot, extras[..|extras| - 1], exclusions);
      ReadIsOneLine(host, JoinPath(sysroot, Last(extras).path));
    }
  }

  lemma ReadIsOneLine(host: Host, path: Path)
    ensures forall s | s in Read(host, path) :: '\n' !in s
  {
    if path in host.files {
      SnippetIsOneLine(host.files[path]);
    }
  }

  /** The merged command line is one line when the root arguments and the entry's own parts are. */
  lemma FullCmdlineIsOneLine(host: Host, global: GlobalCmdline, entry: Entry, root: Path)
    requires global == GlobalOf(host, root, global.root)
    requires forall s | s in global.root :: '\n' !in s
    requires forall s | s in entry.cmdline :: '\n' !in s
    ensures '\n' !in FullCmdline(host, global, entry)
  {
    var vendor, etc := VendorDir(entry.sysroot), EtcDir(root);
    OwnIsOneLine(host, entry.sysroot, entry.kernel.extras, global.etcExclusions);
    VendorIsOneLine(host, vendor, Listing(host, vendor), global.etcExclusions);
    EtcIsOneLine(host, etc, Listing(host, etc));
    SpacedFree(global.root + KernelCmdline(host, entry.sysroot, entry.kernel, global.etcExclusions)
               + entry.cmdline + global.etcSnippets);
  }

  // ---------------------------------------------------------------- the order of the parts

  /** The words of several parts, one after another. */
  function Words(parts: seq<string>): seq<string> {
    if parts == [] then [] else Split(parts[0], ' ') + Words(parts[1..])
  }

  lemma {:induction false} SplitConcat(a: string, c: char, rest: string)
    ensures Split(a + [c] + rest, c) == Split(a, c) + Split(rest, c)
  {
    var s := a + [c] + rest;
    if a == [] {
      assert s[1..] == rest;
    } else {
      assert s[0] == a[0] && s[1..] == a[1..] + [c] + rest;
      SplitConcat(a[1..], c, rest);
    }
  }

  lemma {:induction false} WordsOfSpaced(parts: seq<string>)
    requires parts != []
    ensures Split(Spaced(parts), ' ') == Words(parts)
  {
    if |parts| == 1 {
      assert parts[1..] == [];
      assert Words(parts) == Split(parts[0], ' ') + [];
    } else {
      WordsOfSpaced(parts[1..]);
      SplitConcat(parts[0], ' ', Spaced(parts[1..]));
    }
  }

  lemma {:induction false} WordsConcat(a: seq<string>, b: seq<string>)
    ensures Words(a + b) == Words(a) + Words(b)
  {
    if a == [] {
      assert a + b == b;
    } else {
      assert (a + b)[0] == a[0] && (a + b)[1..] == a[1..] + b;
      WordsConcat(a[1..], b);
    }
  }

  /** The words of the merged command line: those of the root, the kernel, the entry and `/etc`, in this order. */
  lemma FullCmdlineInOrder(host: Host, global: GlobalCmdline, entry: Entry)
    requires global.root + KernelCmdline(host, entry.sysroot, entry.kernel, global.etcExclusions)
             + entry.cmdline + global.etcSnippets != []
    ensures Split(FullCmdline(host, global, entry), ' ')
         == Words(global.root)
            + Words(KernelCmdline(host, entry.sysroot, entry.kernel, global.etcExclusions))
            + Words(entry.cmdline) + Words(global.etcSnippets)
  {
    hide Split, KernelCmdline, Spaced, Words;
    var root, kernel := global.root, KernelCmdline(host, entry.sysroot, entry.kernel, global.etcExclusions);
    WordsOfSpaced(root + kernel + entry.cmdline + global.etcSnippets);
    WordsConcat(root + kernel + entry.cmdline, global.etcSnippets);
    WordsConcat(root + kernel, entry.cmdline);
    WordsConcat(root, kernel);
  }
}
