/**
 Loader configurations: the text `generate_entry` writes, and how a boot loader reads it.

 A reader takes each line up to its first space as the key and the rest as the value (section
 "Type #1 Boot Loader Specification Entries" of the UAPI.1 Boot Loader Specification).
 */
module Conf {
  import opened Text
  import opened Fat
  import opened Entries
  import opened Assets

  // ---------------------------------------------------------------- writing

  function InitrdLines(paths: seq<string>): string {
    if paths == [] then "" else ("\n" + ("initrd " + paths[0])) + InitrdLines(paths[1..])
  }

  function EntryText(title: string, image: string, initrds: seq<string>, options: string): string {
    Assemble("title " + title, "linux " + image,
             if initrds == [] then "\n" else InitrdLines(initrds), "options " + options)
  }

  function Assemble(titleLine: string, linuxLine: string, initrdPart: string, optionsLine: string): string {
    titleLine + "\n" + linuxLine + initrdPart + "\n" + optionsLine + "\n"
  }

  function Title(schema: Schema, version: string): string {
    (if schema.OsDisplayName().Some? then schema.OsDisplayName().value else schema.OsName())
    + " (" + version + ")"
  }

  /** An asset as the configuration names it: from the root of the volume. */
  function AssetText(assetDir: Path, name: Path): string
    requires assetDir != [] && name != []
  {
    "/" + Join(assetDir, '/') + "/" + Join(name, '/')
  }

  function InstalledTexts(schema: Schema, table: Table, assetDir: Path, assets: seq<HashedAsset>): (r: seq<string>)
    requires assetDir != []
    ensures |r| == |assets|
    ensures forall i | 0 <= i < |assets| :: r[i] == AssetText(assetDir, assets[i].InstalledName(schema, table))
  {
    seq(|assets|, i requires 0 <= i < |assets| => AssetText(assetDir, assets[i].InstalledName(schema, table)))
  }

  /** `generate_entry`. */
  function GenerateEntry(schema: Schema, table: Table, assetDir: Path, cmdline: string, entry: HashedEntry): string
    requires assetDir != []
  {
    EntryText(
      Title(schema, entry.inner.kernel.version),
      AssetText(assetDir, entry.image.InstalledName(schema, table)),
      InstalledTexts(schema, table, assetDir, entry.initrd),
      cmdline)
  }

  // ---------------------------------------------------------------- reading

  /** A line cut at its first occurrence of `c`. */
  function Cut(s: string, c: char): (string, string) {
    if s == [] then ([], [])
    else if s[0] == c then ([], s[1..])
    else var (before, after) := Cut(s[1..], c); ([s[0]] + before, after)
  }

  /** The values of a key, in the order of the lines. */
  function Values(lines: seq<string>, key: string): seq<string> {
    if lines == [] then []
    else
      var (k, v) := Cut(lines[0], ' ');
      Prepended(k == key, v, Values(lines[1..], key))
  }

  /** The node a path of a configuration names. */
  function ReferenceKey(value: string): Path {
    Key(Split(value, '/')[1..])
  }

  /** The nodes a configuration refers to. */
  function References(text: Content): set<Path> {
    var lines := Split(text, '\n');
    set v | v in Values(lines, "linux") + Values(lines, "initrd") :: ReferenceKey(v)
  }

  // ---------------------------------------------------------------- round trip

  lemma {:induction false} CutAt(a: string, c: char, rest: string)
    requires c !in a
    ensures Cut(a + [c] + rest, c) == (a, rest)
  {
    var s := a + [c] + rest;
    if a == [] {
      assert s[1..] == rest;
    } else {
      assert s[1..] == a[1..] + [c] + rest;
      CutAt(a[1..], c, rest);
      assert [a[0]] + a[1..] == a;
    }
  }

  lemma {:induction false} JoinConcat(a: seq<string>, b: seq<string>, c: char)
    requires a != [] && b != []
    ensures Join(a + b, c) == Join(a, c) + [c] + Join(b, c)
  {
    if |a| == 1 {
      assert (a + b)[1..] == b;
    } else {
      assert (a + b)[1..] == a[1..] + b;
      JoinConcat(a[1..], b, c);
    }
  }

  /** The lines of the initrds, or the empty line written when there are none. */
  function MiddleLines(initrds: seq<string>): seq<string> {
    if initrds == [] then [""] else seq(|initrds|, i requires 0 <= i < |initrds| => "initrd " + initrds[i])
  }

  function EntryLines(title: string, image: string, initrds: seq<string>, options: string): seq<string> {
    Frame("title " + title, "linux " + image, MiddleLines(initrds), "options " + options)
  }

  function Frame(titleLine: string, linuxLine: string, middle: seq<string>, optionsLine: string): seq<string> {
    [titleLine, linuxLine] + middle + [optionsLine, ""]
  }

  lemma FrameJoin(a: string, b: string, middle: seq<string>, part: string, c: string)
    requires middle != [] && part == "\n" + Join(middle, '\n')
    ensures Assemble(a, b, part, c) == Join(Frame(a, b, middle, c), '\n')
  {
    JoinConcat([a, b] + middle, [c, ""], '\n');
    JoinConcat([a, b], middle, '\n');
    assert [a, b][1..] == [b] && [c, ""][1..] == [""];
    assert Join([a, b], '\n') == a + "\n" + b;
    assert Join([c, ""], '\n') == c + "\n" + "" == c + "\n";
    var m := Join(middle, '\n');
    assert a + "\n" + b + ("\n" + m) == a + "\n" + b + "\n" + m;
    var front := a + "\n" + b + part;
    assert front + "\n" + c + "\n" == front + "\n" + (c + "\n");
  }

  lemma {:induction false} InitrdLinesJoin(initrds: seq<string>)
    requires initrds != []
    ensures InitrdLines(initrds) == "\n" + Join(MiddleLines(initrds), '\n')
  {
    var lines := MiddleLines(initrds);
    if |initrds| == 1 {
      assert InitrdLines(initrds) == ("\n" + ("initrd " + initrds[0])) + "";
    } else {
      assert lines[1..] == MiddleLines(initrds[1..]);
      InitrdLinesJoin(initrds[1..]);
    }
  }

  lemma EntryTextJoin(title: string, image: string, initrds: seq<string>, options: string)
    ensures EntryText(title, image, initrds, options) == Join(EntryLines(title, image, initrds, options), '\n')
  {
    if initrds != [] {
      InitrdLinesJoin(initrds);
    }
    FrameJoin("title " + title, "linux " + image, MiddleLines(initrds),
              if initrds == [] then "\n" else InitrdLines(initrds), "options " + options);
  }

  predicate OneLine(s: string) {
    '\n' !in s
  }

  lemma {:induction false} ValuesConcat(a: seq<string>, b: seq<string>, key: string)
    ensures Values(a + b, key) == Values(a, key) + Values(b, key)
    decreases |a|
  {
    if a == [] {
      assert a + b == b;
    } else {
      hide Cut, Prepended;
      assert (a + b)[0] == a[0] && (a + b)[1..] == a[1..] + b;
      ValuesConcat(a[1..], b, key);
      PrependedConcat(Cut(a[0], ' ').0 == key, Cut(a[0], ' ').1, Values(a[1..], key), Values(b, key));
    }
  }

  lemma ValueOfLine(name: string, value: string, line: string, key: string)
    requires ' ' !in name && line == name + [' '] + value
    ensures Values([line], key) == if name == key then [value] else []
  {
    CutAt(name, ' ', value);
    assert [line][1..] == [];
    assert Values([], key) == [];
  }

  lemma {:induction false} ValuesOfInitrds(initrds: seq<string>, key: string)
    requires key != ""
    ensures Values(MiddleLines(initrds), key) == if key == "initrd" then initrds else []
  {
    var lines := MiddleLines(initrds);
    if |initrds| <= 1 {
      assert lines == [lines[0]];
      assert initrds == [] ==> Cut("", ' ') == ([], []);
    } else {
      assert lines[1..] == MiddleLines(initrds[1..]);
      ValuesOfInitrds(initrds[1..], key);
    }
    if initrds != [] {
      InitrdLine(initrds[0]);
    }
  }

  lemma InitrdLine(path: string)
    ensures Cut("initrd " + path, ' ') == ("initrd", path)
  {
    assert "initrd " + path == "initrd" + [' '] + path;
    CutAt("initrd", ' ', path);
  }

  /** The values read from the lines of an entry, whose first words are fixed. */
  lemma ValuesOfFrame(a: string, b: string, middle: seq<string>, c: string, key: string)
    requires key != ""
    ensures Values(Frame(a, b, middle, c), key)
         == Values([a], key) + Values([b], key) + Values(middle, key) + Values([c], key)
  {
    ValuesConcat([a, b] + middle, [c, ""], key);
    ValuesConcat([a, b], middle, key);
    ValuesConcat([a], [b], key);
    ValuesConcat([c], [""], key);
    assert [a, b] == [a] + [b] && [c, ""] == [c] + [""];
    assert Cut("", ' ') == ([], []);
    assert [""][1..] == [];
    assert Values([""], key) == [];
  }

  /** Reading an entry back gives the title, the image, the initrds in order and the options. */
  lemma EntryReadsBack(title: string, image: string, initrds: seq<string>, options: string)
    requires OneLine(title) && OneLine(image) && OneLine(options) && forall p | p in initrds :: OneLine(p)
    ensures var lines := Split(EntryText(title, image, initrds, options), '\n');
            && Values(lines, "title") == [title]
            && Values(lines, "linux") == [image]
            && Values(lines, "initrd") == initrds
            && Values(lines, "options") == [options]
  {
    hide EntryText, EntryLines, Split, Values, Join;
    var lines := EntryLines(title, image, initrds, options);
    EntryTextJoin(title, image, initrds, options);
    EntryLinesFree(title, image, initrds, options);
    SplitJoin(lines, '\n');
    EntryValue(title, image, initrds, options, "title");
    EntryValue(title, image, initrds, options, "linux");
    EntryValue(title, image, initrds, options, "initrd");
    EntryValue(title, image, initrds, options, "options");
  }

  lemma EntryValue(title: string, image: string, initrds: seq<string>, options: string, key: string)
    requires key != ""
    ensures Values(EntryLines(title, image, initrds, options), key) ==
            (if key == "title" then [title] else []) + (if key == "linux" then [image] else [])
            + (if key == "initrd" then initrds else []) + (if key == "options" then [options] else [])
  {
    hide Values;
    ValuesOfFrame("title " + title, "linux " + image, MiddleLines(initrds), "options " + options, key);
    ValueOfLine("title", title, "title " + title, key);
    ValueOfLine("linux", image, "linux " + image, key);
    ValuesOfInitrds(initrds, key);
    ValueOfLine("options", options, "options " + options, key);
  }

  lemma EntryLinesFree(title: string, image: string, initrds: seq<string>, options: string)
    requires OneLine(title) && OneLine(image) && OneLine(options) && forall p | p in initrds :: OneLine(p)
    ensures EntryLines(title, image, initrds, options) != []
    ensures forall line | line in EntryLines(title, image, initrds, options) :: '\n' !in line
  {
    forall line | line in EntryLines(title, image, initrds, options)
      ensures '\n' !in line
    {
      EntryLineFree(title, image, initrds, options, line);
    }
  }

  lemma EntryLineFree(title: string, image: string, initrds: seq<string>, options: string, line: string)
    requires OneLine(title) && OneLine(image) && OneLine(options) && forall p | p in initrds :: OneLine(p)
    requires line in EntryLines(title, image, initrds, options)
    ensures OneLine(line)
  {
    if line in MiddleLines(initrds) && initrds != [] {
      var i :| 0 <= i < |initrds| && line == MiddleLines(initrds)[i];
      assert initrds[i] in initrds;
    }
  }

  predicate PlainName(name: string) {
    '/' !in name && '\n' !in name
  }

  /** A path written into a configuration is read back as the node it names. */
  lemma ReferenceReadsBack(assetDir: Path, name: Path)
    requires assetDir != [] && name != []
    requires forall n | n in assetDir + name :: PlainName(n)
    ensures ReferenceKey(AssetText(assetDir, name)) == Key(assetDir + name)
    ensures OneLine(AssetText(assetDir, name))
  {
    var p := assetDir + name;
    JoinConcat(assetDir, name, '/');
    assert AssetText(assetDir, name) == "/" + Join(p, '/');
    assert Join([""] + p, '/') == "/" + Join(p, '/') by {
      assert ([""] + p)[1..] == p;
    }
    SplitJoin([""] + p, '/');
    assert ([""] + p)[1..] == p;
    JoinFree(p, '/', '\n');
  }

  lemma {:induction false} JoinFree(parts: seq<string>, c: char, x: char)
    requires parts != [] && c != x && forall p | p in parts :: x !in p
    ensures x !in Join(parts, c)
  {
    if |parts| > 1 {
      JoinFree(parts[1..], c, x);
    }
  }
}
