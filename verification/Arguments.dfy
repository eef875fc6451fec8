/** The words of the merged command line, told by the lines and characters of the files they come from. */
module Arguments {
  import opened Text
  import opened Compare
  import opened Entries
  import opened Cmdlines

  // ---------------------------------------------------------------- lines

  /** White space as section "White_Space" of the Unicode character database has it. */
  predicate IsBlank(c: char) {
    var code := c as int;
    || 0x09 <= code <= 0x0D || code == 0x20 || code == 0x85 || code == 0xA0 || code == 0x1680
    || 0x2000 <= code <= 0x200A || 0x2028 <= code <= 0x2029 || code == 0x202F || code == 0x205F || code == 0x3000
  }

  predicate AllBlank(s: string) {
    forall c | c in s :: IsBlank(c)
  }

  predicate IsTrimmed(core: string) {
    core != "" ==> !IsBlank(core[0]) && !IsBlank(Last(core))
  }

  /** What a line says, between the blanks around it. */
  ghost predicate Says(line: string, core: string) {
    && IsTrimmed(core)
    && exists before: string, after: string :: AllBlank(before) && AllBlank(after) && line == before + core + after
  }

  predicate IsComment(core: string) {
    core != "" && core[0] == '#'
  }

  lemma BlankIs(c: char)
    ensures IsBlank(c) <==> IsSpace(c)
  {
  }

  lemma {:induction false} PaddedTrims(before: string, core: string, after: string)
    requires AllBlank(before) && AllBlank(after) && IsTrimmed(core)
    ensures Trim(before + core + after) == core
    decreases |before| + |after|
  {
    hide IsBlank, IsSpace;
    var s := before + core + after;
    if before != "" {
      BlankIs(before[0]);
      assert s[1..] == before[1..] + core + after;
      PaddedTrims(before[1..], core, after);
    } else if core == "" && after != "" {
      BlankIs(after[0]);
      assert s[1..] == "" + core + after[1..];
      PaddedTrims("", core, after[1..]);
    } else if after != "" {
      BlankIs(core[0]);
      BlankIs(Last(after));
      assert s[..|s| - 1] == "" + core + after[..|after| - 1];
      PaddedTrims("", core, after[..|after| - 1]);
    } else if core != "" {
      BlankIs(core[0]);
      BlankIs(Last(core));
      assert s == core;
    }
  }

  lemma NothingBlank()
    ensures AllBlank("")
  {
  }

  lemma MoreBlank(c: char, s: string)
    requires IsBlank(c) && AllBlank(s)
    ensures AllBlank([c] + s) && AllBlank(s + [c])
  {
    hide IsBlank;
  }

  lemma Regroup(c: char, a: string, b: string, d: string, s: string)
    requires s == a + b + d
    ensures [c] + s == ([c] + a) + b + d && s + [c] == a + b + (d + [c])
  {
  }

  lemma {:induction false} TrimPads(line: string) returns (before: string, after: string)
    ensures AllBlank(before) && AllBlank(after) && line == before + Trim(line) + after && IsTrimmed(Trim(line))
    decreases |line|
  {
    hide IsBlank, IsSpace, AllBlank, IsTrimmed;
    before, after := "", "";
    NothingBlank();
    TrimmedAt(line);
    if line != "" {
      BlankIs(line[0]);
      BlankIs(Last(line));
      if IsSpace(line[0]) {
        var rest := line[1..];
        assert line == [line[0]] + rest && Trim(line) == Trim(rest);
        before, after := TrimPads(rest);
        MoreBlank(line[0], before);
        Regroup(line[0], before, Trim(rest), after, rest);
        before := [line[0]] + before;
      } else if IsSpace(Last(line)) {
        var rest := line[..|line| - 1];
        assert line == rest + [Last(line)] && Trim(line) == Trim(rest);
        before, after := TrimPads(rest);
        MoreBlank(Last(line), after);
        Regroup(Last(line), before, Trim(rest), after, rest);
        after := after + [Last(line)];
      }
    }
  }

  lemma TrimmedAt(s: string)
    ensures IsTrimmed(s) <==> s == "" || (!IsSpace(s[0]) && !IsSpace(Last(s)))
  {
    hide IsBlank, IsSpace;
    if s != "" {
      BlankIs(s[0]);
      BlankIs(Last(s));
    }
  }

  lemma SaysTrim(line: string, core: string)
    ensures Says(line, core) <==> core == Trim(line)
  {
    hide Trim, IsBlank;
    if Says(line, core) {
      var before: string, after: string :|
        AllBlank(before) && AllBlank(after) && line == before + core + after;
      PaddedTrims(before, core, after);
    }
    var before, after := TrimPads(line);
  }

  // ---------------------------------------------------------------- one snippet

  /** The positions of the lines that are no comments, in order. */
  ghost predicate AreArguments(at: seq<nat>, cores: seq<string>) {
    Increasing(at) && forall i: nat :: i in at <==> i < |cores| && !IsComment(cores[i])
  }

  function Shifted(at: seq<nat>): (r: seq<nat>)
    ensures |r| == |at| && forall j | 0 <= j < |at| :: r[j] == at[j] + 1
  {
    seq(|at|, j requires 0 <= j < |at| => at[j] + 1)
  }

  lemma ShiftedHas(at: seq<nat>, i: nat)
    ensures i in Shifted(at) <==> i > 0 && i - 1 in at
  {
    if i in Shifted(at) {
      var j :| 0 <= j < |at| && Shifted(at)[j] == i;
      assert at[j] == i - 1;
    }
    if i > 0 && i - 1 in at {
      var j :| 0 <= j < |at| && at[j] == i - 1;
      assert Shifted(at)[j] == i;
    }
  }

  lemma NextArguments(at: seq<nat>, cores: seq<string>)
    requires cores != [] && AreArguments(at, cores[1..])
    ensures AreArguments((if IsComment(cores[0]) then [] else [0]) + Shifted(at), cores)
  {
    hide IsComment;
    var all := (if IsComment(cores[0]) then [] else [0]) + Shifted(at);
    forall i: nat
      ensures i in all <==> i < |cores| && !IsComment(cores[i])
    {
      ShiftedHas(at, i);
      assert i > 0 && i < |cores| ==> cores[1..][i - 1] == cores[i];
    }
  }

  lemma NoArguments()
    ensures AreArguments([], []) && FoundAt([], [], [])
  {
  }

  lemma FirstLine(lines: seq<string>, core: string)
    requires lines != [] && core == Trim(lines[0])
    ensures KeptLines(lines) == (if IsComment(core) then [] else [core]) + KeptLines(lines[1..])
  {
    hide Trim;
  }

  /** The lines found at the positions. */
  ghost predicate FoundAt(at: seq<nat>, kept: seq<string>, cores: seq<string>) {
    |kept| == |at| && forall j | 0 <= j < |at| :: at[j] < |cores| && kept[j] == cores[at[j]]
  }

  lemma NextFound(at: seq<nat>, kept: seq<string>, cores: seq<string>)
    requires cores != [] && FoundAt(at, kept, cores[1..])
    ensures FoundAt(Shifted(at), kept, cores) && FoundAt([0] + Shifted(at), [cores[0]] + kept, cores)
  {
  }

  /** Of lines that say something, those are kept that are no comments, and of each what it says. */
  lemma {:induction false} KeptLinesAre(lines: seq<string>, cores: seq<string>) returns (at: seq<nat>)
    requires |lines| == |cores| && forall i | 0 <= i < |lines| :: Says(lines[i], cores[i])
    ensures AreArguments(at, cores) && FoundAt(at, KeptLines(lines), cores)
  {
    hide Says, Trim, AreArguments, IsComment, FoundAt, Shifted;
    if lines == [] {
      at := [];
      NoArguments();
    } else {
      SaysTrim(lines[0], cores[0]);
      var rest := KeptLinesAre(lines[1..], cores[1..]);
      NextArguments(rest, cores);
      NextFound(rest, KeptLines(lines[1..]), cores);
      FirstLine(lines, cores[0]);
      at := if IsComment(cores[0]) then Shifted(rest) else [0] + Shifted(rest);
      assert [] + Shifted(rest) == Shifted(rest) && [] + KeptLines(lines[1..]) == KeptLines(lines[1..]);
    }
  }

  /**
   What is read from a file of such lines, whether or not the last one ends with a newline: what those say that are no
   comments, in order, joined by one space.
   */
  lemma SnippetReads(host: Host, path: Path, lines: seq<string>, cores: seq<string>, end: string)
    returns (at: seq<nat>, kept: seq<string>)
    requires |lines| == |cores| && lines != []
    requires forall i | 0 <= i < |lines| :: '\n' !in lines[i] && Says(lines[i], cores[i])
    requires end == "\n" || (end == "" && Last(lines) != "")
    requires path in host.files && host.files[path] == Join(lines, '\n') + end
    ensures AreArguments(at, cores) && FoundAt(at, kept, cores)
    ensures Read(host, path) == [if kept == [] then "" else Join(kept, ' ')]
  {
    hide Says, Trim, AreArguments, FoundAt, KeptLines, Join, Split;
    LinesOfJoin(lines, end);
    at := KeptLinesAre(lines, cores);
    kept := KeptLines(lines);
  }

  lemma LinesOfJoin(lines: seq<string>, end: string)
    requires lines != [] && forall line | line in lines :: '\n' !in line
    requires end == "\n" || (end == "" && Last(lines) != "")
    ensures Lines(Join(lines, '\n') + end) == lines
  {
    hide Split, Join;
    SplitJoin(lines, '\n');
    if end == "\n" {
      var text := Join(lines, '\n');
      SplitConcat(text, '\n', "");
      SplitFree("", '\n');
      assert text + end == text + ['\n'] + "";
      assert Split(text + end, '\n') == lines + [""];
    } else {
      assert Join(lines, '\n') + end == Join(lines, '\n');
    }
  }

  // ---------------------------------------------------------------- the words of a file

  ghost predicate IsArgumentOf(content: string, line: string, core: string, w: string) {
    line in Split(content, '\n') && Says(line, core) && !IsComment(core) && w in Split(core, ' ')
  }

  /** A word of a line of a file that can be read and is no comment. */
  ghost predicate HasArgument(host: Host, path: Path, w: string) {
    path in host.files && exists line, core :: IsArgumentOf(host.files[path], line, core, w)
  }

  lemma {:induction false} WordIn(parts: seq<string>, w: string)
    ensures w in Words(parts) <==> exists p | p in parts :: w in Split(p, ' ')
  {
    hide Split;
    if parts != [] {
      WordIn(parts[1..], w);
      assert forall p :: p in parts <==> p == parts[0] || p in parts[1..];
      assert w in Words(parts) <==> w in Split(parts[0], ' ') || w in Words(parts[1..]);
      if w in Split(parts[0], ' ') {
        assert parts[0] in parts;
      }
    }
  }

  /** The words other than empty ones of a list of parts put together. */
  lemma SpacedWords(parts: seq<string>, w: string)
    requires w != ""
    ensures w in Split(Spaced(parts), ' ') <==> exists p | p in parts :: w in Split(p, ' ')
  {
    hide Split, Spaced, Words;
    WordIn(parts, w);
    if parts == [] {
      SplitFree("", ' ');
      assert Spaced([]) == "" by {
        NothingSpaced();
      }
    } else {
      WordsOfSpaced(parts);
    }
  }

  lemma NothingSpaced()
    ensures Spaced([]) == ""
  {
  }

  lemma {:induction false} KeptLineIs(lines: seq<string>, core: string)
    ensures core in KeptLines(lines) <==> !IsComment(core) && exists line | line in lines :: Says(line, core)
  {
    hide Says, Trim;
    if lines != [] {
      KeptLineIs(lines[1..], core);
      SaysTrim(lines[0], core);
      FirstLine(lines, Trim(lines[0]));
      assert lines == [lines[0]] + lines[1..];
    }
  }

  /** A word is read from a file exactly when one of its lines has it as an argument. */
  lemma ReadWords(host: Host, path: Path, w: string)
    requires w != ""
    ensures (exists s | s in Read(host, path) :: w in Split(s, ' ')) <==> HasArgument(host, path, w)
  {
    hide Split, Spaced, KeptLines, Says, IsComment, Lines;
    if path in host.files {
      var content := host.files[path];
      SpacedWords(KeptLines(Lines(content)), w);
      var kept := KeptLines(Lines(content));
      assert Read(host, path) == [Spaced(kept)];
      if core :| core in kept && w in Split(core, ' ') {
        KeptLineIs(Lines(content), core);
        var line :| line in Lines(content) && Says(line, core);
        LineWithWord(content, line, core, w);
        assert IsArgumentOf(content, line, core, w);
      }
      if line, core :| IsArgumentOf(content, line, core, w) {
        LineWithWord(content, line, core, w);
        KeptLineIs(Lines(content), core);
      }
    }
  }

  /** The empty line that is left out has no words. */
  lemma LineWithWord(content: string, line: string, core: string, w: string)
    requires w != "" && w in Split(core, ' ') && Says(line, core)
    ensures line in Lines(content) <==> line in Split(content, '\n')
  {
    hide Says;
    var parts := Split(content, '\n');
    if line == "" {
      SaysTrim(line, core);
      SplitFree("", ' ');
      assert false;
    }
    assert parts == parts[..|parts| - 1] + [Last(parts)];
  }

  // ---------------------------------------------------------------- the words of the merged command line

  predicate IsDirEntry(host: Host, dir: Path, name: string) {
    dir in host.listing && name in host.listing[dir]
  }

  /** An entry of `/etc/kernel/cmdline.d` with the extension of snippets. */
  ghost predicate IsEtc(host: Host, root: Path, name: string) {
    && IsDirEntry(host, root + ["etc", "kernel", "cmdline.d"], name)
    && exists stem: string :: stem != "" && name == stem + ".cmdline"
  }

  /** A name masked by a link to /dev/null. */
  ghost predicate IsMasked(host: Host, root: Path, name: string) {
    IsEtc(host, root, name) && root + ["etc", "kernel", "cmdline.d", name] in host.nullLinks
  }

  /** A word of a snippet of `/etc`. */
  ghost predicate IsEtcWord(host: Host, root: Path, name: string, w: string) {
    && IsEtc(host, root, name) && !IsMasked(host, root, name)
    && HasArgument(host, root + ["etc", "kernel", "cmdline.d", name], w)
  }

  /** A word of a snippet that comes with the kernel: an absolute path is read as it is. */
  ghost predicate IsOwnWord(host: Host, root: Path, sysroot: Path, extra: AuxFile, w: string) {
    && extra.kind.Cmdline? && extra.path != [] && Last(extra.path) != "/" && Last(extra.path) != ".."
    && !IsMasked(host, root, Last(extra.path))
    && (extra.path[0] == "/" ==> HasArgument(host, extra.path, w))
    && (extra.path[0] != "/" ==> HasArgument(host, sysroot + extra.path, w))
  }

  /** A word of a snippet of the vendor directory of the entry's root. */
  ghost predicate IsVendorWord(host: Host, root: Path, sysroot: Path, name: string, w: string) {
    && IsDirEntry(host, sysroot + ["usr", "lib", "kernel", "cmdline.d"], name) && name != "/" && name != ".."
    && !IsMasked(host, root, name)
    && HasArgument(host, sysroot + ["usr", "lib", "kernel", "cmdline.d", name], w)
  }

  lemma MasksAre(host: Host, root: Path, rootArgs: seq<string>, name: string)
    ensures name in GlobalOf(host, root, rootArgs).etcExclusions <==> IsMasked(host, root, name)
  {
    hide Extension;
    var dir := root + ["etc", "kernel", "cmdline.d"];
    EtcMaskIn(host, dir, Listing(host, dir), name);
    HasExtension(name);
    assert dir + [name] == root + ["etc", "kernel", "cmdline.d", name];
  }

  lemma HasExtension(name: string)
    ensures Extension(name) == Some("cmdline") <==> exists stem: string :: stem != "" && name == stem + ".cmdline"
  {
    hide Extension;
    ExtensionIs(name, "cmdline");
    forall stem: string
      ensures stem + "." + "cmdline" == stem + ".cmdline"
    {
    }
  }

  lemma {:induction false} EtcMaskIn(host: Host, dir: Path, names: seq<string>, name: string)
    ensures name in EtcMasks(host, dir, names) <==> name in names && IsMask(host, dir, name)
  {
    hide IsMask;
    if names != [] {
      EtcMaskIn(host, dir, Parent(names), name);
      assert names == Parent(names) + [Last(names)];
    }
  }

  /** A snippet that holds a word. */
  ghost predicate HasWord(snippets: seq<string>, w: string) {
    exists s | s in snippets :: w in Split(s, ' ')
  }

  lemma HasWordConcat(a: seq<string>, b: seq<string>, w: string)
    ensures HasWord(a + b, w) <==> HasWord(a, w) || HasWord(b, w)
  {
    hide Split;
  }

  lemma {:induction false} EtcWordIn(host: Host, dir: Path, names: seq<string>, w: string)
    requires w != ""
    ensures HasWord(EtcSnippets(host, dir, names), w) <==>
              exists name | name in names ::
                Extension(name) == Some("cmdline") && !IsMask(host, dir, name) && HasArgument(host, dir + [name], w)
  {
    hide Split, Extension, IsMask, HasArgument, Read, HasWord;
    NoWord(w);
    if names != [] {
      var last := Last(names);
      EtcWordIn(host, dir, Parent(names), w);
      assert names == Parent(names) + [last];
      ReadWord(host, dir + [last], w);
      HasWordConcat(EtcSnippets(host, dir, Parent(names)), Read(host, dir + [last]), w);
      HasWordConcat(EtcSnippets(host, dir, Parent(names)), [], w);
    }
  }

  lemma NoWord(w: string)
    ensures !HasWord([], w)
  {
  }

  lemma ReadWord(host: Host, path: Path, w: string)
    requires w != ""
    ensures HasWord(Read(host, path), w) <==> HasArgument(host, path, w)
  {
    hide Split, Read, HasArgument;
    ReadWords(host, path, w);
  }

  lemma {:induction false} OwnWordIn(host: Host, sysroot: Path, extras: seq<AuxFile>, exclusions: seq<string>,
                                     w: string)
    requires w != ""
    ensures HasWord(OwnSnippets(host, sysroot, extras, exclusions), w) <==>
              exists extra | extra in extras ::
                && extra.kind.Cmdline? && FileName(extra.path).Some? && FileName(extra.path).value !in exclusions
                && HasArgument(host, JoinPath(sysroot, extra.path), w)
  {
    hide Split, FileName, JoinPath, HasArgument, Read, HasWord;
    NoWord(w);
    if extras != [] {
      var front, last := extras[..|extras| - 1], Last(extras);
      OwnWordIn(host, sysroot, front, exclusions, w);
      assert extras == front + [last];
      ReadWord(host, JoinPath(sysroot, last.path), w);
      HasWordConcat(OwnSnippets(host, sysroot, front, exclusions), Read(host, JoinPath(sysroot, last.path)), w);
      HasWordConcat(OwnSnippets(host, sysroot, front, exclusions), [], w);
    }
  }

  lemma {:induction false} VendorWordIn(host: Host, dir: Path, names: seq<string>, exclusions: seq<string>, w: string)
    requires w != ""
    ensures HasWord(VendorSnippets(host, dir, names, exclusions), w) <==>
              exists name | name in names ::
                FileName(dir + [name]).Some? && name !in exclusions && HasArgument(host, dir + [name], w)
  {
    hide Split, FileName, HasArgument, Read, HasWord;
    NoWord(w);
    if names != [] {
      var last := Last(names);
      VendorWordIn(host, dir, Parent(names), exclusions, w);
      assert names == Parent(names) + [last];
      ReadWord(host, dir + [last], w);
      HasWordConcat(VendorSnippets(host, dir, Parent(names), exclusions), Read(host, dir + [last]), w);
      HasWordConcat(VendorSnippets(host, dir, Parent(names), exclusions), [], w);
    }
  }

  lemma EtcWords(host: Host, root: Path, rootArgs: seq<string>, w: string)
    requires w != ""
    ensures HasWord(GlobalOf(host, root, rootArgs).etcSnippets, w) <==>
              exists name :: IsEtcWord(host, root, name, w)
  {
    hide HasArgument, HasWord, Extension;
    var dir := root + ["etc", "kernel", "cmdline.d"];
    EtcWordIn(host, dir, Listing(host, dir), w);
    forall name
      ensures name in Listing(host, dir) && Extension(name) == Some("cmdline") && !IsMask(host, dir, name)
              && HasArgument(host, dir + [name], w)
              <==> IsEtcWord(host, root, name, w)
    {
      HasExtension(name);
      assert dir + [name] == root + ["etc", "kernel", "cmdline.d", name];
    }
    hide IsEtcWord, IsMask, EtcSnippets;
  }

  lemma OwnWords(host: Host, root: Path, rootArgs: seq<string>, entry: Entry, w: string)
    requires w != ""
    ensures HasWord(OwnSnippets(host, entry.sysroot, entry.kernel.extras,
                                GlobalOf(host, root, rootArgs).etcExclusions), w) <==>
              exists extra | extra in entry.kernel.extras :: IsOwnWord(host, root, entry.sysroot, extra, w)
  {
    hide HasArgument, HasWord, IsMasked, GlobalOf;
    var exclusions := GlobalOf(host, root, rootArgs).etcExclusions;
    OwnWordIn(host, entry.sysroot, entry.kernel.extras, exclusions, w);
    forall extra: AuxFile
      ensures extra.kind.Cmdline? && FileName(extra.path).Some? && FileName(extra.path).value !in exclusions
              && HasArgument(host, JoinPath(entry.sysroot, extra.path), w)
              <==> IsOwnWord(host, root, entry.sysroot, extra, w)
    {
      if extra.path != [] {
        MasksAre(host, root, rootArgs, Last(extra.path));
      }
    }
    hide IsOwnWord, FileName, JoinPath;
  }

  lemma VendorWords(host: Host, root: Path, rootArgs: seq<string>, sysroot: Path, w: string)
    requires w != ""
    ensures HasWord(VendorSnippets(host, VendorDir(sysroot), Listing(host, VendorDir(sysroot)),
                                   GlobalOf(host, root, rootArgs).etcExclusions), w) <==>
              exists name :: IsVendorWord(host, root, sysroot, name, w)
  {
    hide HasArgument, HasWord, IsMasked, GlobalOf;
    var exclusions := GlobalOf(host, root, rootArgs).etcExclusions;
    var dir := sysroot + ["usr", "lib", "kernel", "cmdline.d"];
    VendorWordIn(host, dir, Listing(host, dir), exclusions, w);
    forall name
      ensures name in Listing(host, dir) && FileName(dir + [name]).Some? && name !in exclusions
              && HasArgument(host, dir + [name], w)
              <==> IsVendorWord(host, root, sysroot, name, w)
    {
      MasksAre(host, root, rootArgs, name);
      assert dir + [name] == sysroot + ["usr", "lib", "kernel", "cmdline.d", name];
    }
    hide IsVendorWord, FileName, VendorSnippets;
  }

  /**
   The words of the merged command line, apart from empty ones: those of the root arguments and of the entry, and those
   of the lines that are no comments, of every snippet that can be read and is not masked.
   */
  lemma WordsExactly(host: Host, root: Path, rootArgs: seq<string>, entry: Entry, w: string)
    requires w != ""
    ensures w in Split(FullCmdline(host, GlobalOf(host, root, rootArgs), entry), ' ') <==>
              || (exists s | s in rootArgs + entry.cmdline :: w in Split(s, ' '))
              || (exists extra | extra in entry.kernel.extras :: IsOwnWord(host, root, entry.sysroot, extra, w))
              || (exists name :: IsVendorWord(host, root, entry.sysroot, name, w))
              || (exists name :: IsEtcWord(host, root, name, w))
  {
    hide Split, IsOwnWord, IsVendorWord, IsEtcWord, HasWord, EtcSnippets, EtcMasks, OwnSnippets, VendorSnippets, Spaced;
    var global := GlobalOf(host, root, rootArgs);
    var kernel := KernelCmdline(host, entry.sysroot, entry.kernel, global.etcExclusions);
    EtcWords(host, root, rootArgs, w);
    OwnWords(host, root, rootArgs, entry, w);
    VendorWords(host, root, rootArgs, entry.sysroot, w);
    AllWords(rootArgs, kernel, entry.cmdline, global.etcSnippets, w);
    assert FullCmdline(host, global, entry) == Spaced(rootArgs + kernel + entry.cmdline + global.etcSnippets);
    HasWordConcat(OwnSnippets(host, entry.sysroot, entry.kernel.extras, global.etcExclusions),
                  VendorSnippets(host, VendorDir(entry.sysroot), Listing(host, VendorDir(entry.sysroot)),
                                 global.etcExclusions), w);
  }

  lemma AllWords(rootArgs: seq<string>, kernel: seq<string>, cmdline: seq<string>, etc: seq<string>, w: string)
    requires w != ""
    ensures w in Split(Spaced(rootArgs + kernel + cmdline + etc), ' ') <==>
              (exists s | s in rootArgs + cmdline :: w in Split(s, ' ')) || HasWord(kernel, w) || HasWord(etc, w)
  {
    hide Split, Spaced;
    SpacedWords(rootArgs + kernel + cmdline + etc, w);
    hide HasWord;
    HasWordConcat(rootArgs + kernel + cmdline, etc, w);
    HasWordConcat(rootArgs + kernel, cmdline, w);
    HasWordConcat(rootArgs, kernel, w);
    HasWordConcat(rootArgs, cmdline, w);
    HasWordIs(rootArgs + cmdline, w);
    HasWordIs(rootArgs + kernel + cmdline + etc, w);
  }

  lemma HasWordIs(parts: seq<string>, w: string)
    ensures HasWord(parts, w) <==> exists p | p in parts :: w in Split(p, ' ')
  {
  }
}
