/** Third-party notices: each license file in a fenced block, scripts/compiled-binary-licenses.ts. */
module LicenseNotices {
  import opened Prelude
  import opened Markdown

  datatype LicenseFile = LicenseFile(path: string, text: string)

  datatype PackageLicense = PackageLicense(
    name: string, version: string, license: string, repository: Option<string>, homepage: Option<string>,
    files: seq<LicenseFile>)

  /** Each run length plus one. */
  function Longer(ns: seq<nat>): seq<nat> {
    if ns == [] then [] else [ns[0] + 1] + Longer(ns[1..])
  }

  function FenceFor(text: string): string {
    Repeat('`', Maximum(3, Longer(Runs(text, '`'))))
  }

  // ---------------------------------------------------------------- rendering

  function Heading(pkg: PackageLicense): string {
    "## " + pkg.name + "@" + pkg.version + "\n\nSPDX: " + pkg.license + "\n"
  }

  function Field(name: string, value: string): string {
    name + value + "\n"
  }

  /** The parts before the files. */
  ghost function Header(pkg: PackageLicense): seq<string> {
    [Heading(pkg)] + Optional("Repository: ", pkg.repository) + Optional("Homepage: ", pkg.homepage)
    + NoteFor(pkg.files)
  }

  ghost function NoteFor(files: seq<LicenseFile>): seq<string> {
    if files == [] then ["\n" + NOTE + "\n"] else []
  }

  ghost function Optional(name: string, value: Option<string>): seq<string> {
    if value.Some? then [Field(name, value.value)] else []
  }

  function Section(file: LicenseFile): string {
    var fence := FenceFor(file.text);
    "\n### " + file.path + "\n\n" + fence + "text\n" + file.text + "\n" + fence + "\n"
  }

  const NOTE :=
    ("No license file is shipped" + " in this installed package;") + (" see the SPDX declaration" + " and source above.")

  method RenderHeader(pkg: PackageLicense) returns (parts: seq<string>)
    ensures parts == Header(pkg)
  {
    parts := [Heading(pkg)];
    if pkg.repository.Some? {
      parts := parts + [Field("Repository: ", pkg.repository.value)];
    }
    if pkg.homepage.Some? {
      parts := parts + [Field("Homepage: ", pkg.homepage.value)];
    }
    if pkg.files == [] {
      parts := parts + ["\n" + NOTE + "\n"];
    }
  }

  function Sections(files: seq<LicenseFile>): seq<string> {
    if files == [] then [] else Sections(files[..|files| - 1]) + [Section(files[|files| - 1])]
  }

  method RenderPackageLicense(pkg: PackageLicense) returns (document: string)
    ensures document == Concat(Header(pkg) + Sections(pkg.files))
    ensures HeaderIsPlain(pkg) ==> FencedBlocks(Lines(document)) == Texts(pkg.files)
  {
    var parts := RenderHeader(pkg);
    for i := 0 to |pkg.files|
      invariant parts == Header(pkg) + Sections(pkg.files[..i])
    {
      assert pkg.files[..i + 1] == pkg.files[..i] + [pkg.files[i]];
      parts := parts + [Section(pkg.files[i])];
    }
    assert pkg.files[..|pkg.files|] == pkg.files;
    document := Concat(parts);
    if HeaderIsPlain(pkg) {
      HeaderShows(pkg);
      SectionsShow(Header(pkg), pkg.files);
      AllRead(document, Texts(pkg.files));
    }
  }

  // ---------------------------------------------------------------- what a reader sees

  predicate SingleLine(s: string) {
    forall c | c in s :: !IsLineEnd(c)
  }

  /** The metadata around the texts stays on the lines it is put on. */
  predicate HeaderIsPlain(pkg: PackageLicense) {
    && SingleLine(pkg.name) && SingleLine(pkg.version) && SingleLine(pkg.license)
    && (pkg.repository.Some? ==> SingleLine(pkg.repository.value))
    && (pkg.homepage.Some? ==> SingleLine(pkg.homepage.value))
    && forall file | file in pkg.files :: SingleLine(file.path)
  }

  /** The lines of the license texts. */
  function Texts(files: seq<LicenseFile>): seq<seq<string>> {
    if files == [] then [] else Texts(files[..|files| - 1]) + [Lines(files[|files| - 1].text + "\n")]
  }

  function Concat(parts: seq<string>): string {
    if parts == [] then "" else Concat(parts[..|parts| - 1]) + parts[|parts| - 1]
  }

  /** The document so far ends a line, leaves no fence open, and has these fenced blocks. */
  ghost predicate Shows(document: string, blocks: seq<seq<string>>) {
    EndsLine(document) && AllClosed(Lines(document), blocks)
  }

  predicate EndsLine(s: string) {
    s != "" ==> s[|s| - 1] == '\n'
  }

  /** Whatever lines come next, their blocks follow these. */
  ghost predicate AllClosed(lines: seq<string>, blocks: seq<seq<string>>) {
    forall rest :: Follow(lines, blocks, rest)
  }

  predicate Follow(lines: seq<string>, blocks: seq<seq<string>>, rest: seq<string>) {
    FencedBlocks(lines + rest) == blocks + FencedBlocks(rest)
  }

  // ---------------------------------------------------------------- no line of a text closes its fence

  lemma {:induction false} LongerIsLonger(ns: seq<nat>)
    ensures forall n | n in ns :: n + 1 in Longer(ns)
  {
    if ns != [] {
      LongerIsLonger(ns[1..]);
      assert ns == [ns[0]] + ns[1..];
    }
  }

  lemma {:induction false} FenceExceedsRuns(text: string)
    ensures |FenceFor(text)| >= 3 && forall m | m in Runs(text, '`') :: m < |FenceFor(text)|
  {
    MaximumBounds(3, Longer(Runs(text, '`')));
    LongerIsLonger(Runs(text, '`'));
  }

  /** The fence is at least as long as any closing fence would have to be: no line of the text closes it. */
  lemma NoLineCloses(text: string, line: string)
    requires line in Lines(text + "\n")
    ensures !Closes(line, Fence('`', |FenceFor(text)|))
  {
    var n := |FenceFor(text)|;
    FenceExceedsRuns(text);
    if Closes(line, Fence('`', n)) {
      var i := RunLength(line, ' ');
      LinesAreParts(text + "\n", line);
      var at :| 0 <= at <= |text + "\n"| && StartsWith((text + "\n")[at..], line);
      RunInText(text, line, i, at, n);
      RunIsCovered(text, '`', at + i, n);
      assert false;
    }
  }

  lemma RunInText(text: string, line: string, i: nat, at: nat, n: nat)
    requires at <= |text + "\n"| && StartsWith((text + "\n")[at..], line)
    requires i <= |line| && RunLength(line[i..], '`') >= n > 0
    ensures RunAt(text, '`', at + i, n)
  {
    forall k | at + i <= k < at + i + n ensures k < |text| && text[k] == '`' {
      MarkInText(text, line, i, at, k - at - i);
    }
    MarkInText(text, line, i, at, n - 1);
  }

  lemma MarkInText(text: string, line: string, i: nat, at: nat, k: nat)
    requires at <= |text + "\n"| && StartsWith((text + "\n")[at..], line)
    requires i <= |line| && k < RunLength(line[i..], '`')
    ensures at + i + k < |text| && text[at + i + k] == '`'
  {
    assert line[i..][k] == '`';
    assert (text + "\n")[at..][i + k] == line[i + k] == '`';
    assert (text + "\n")[at + i + k] == '`';
  }

  // ---------------------------------------------------------------- blocks of consecutive lines

  lemma PlainLine(line: string)
    requires line == "" || line[0] !in " `~"
    ensures Opens(line).None?
  {
  }

  lemma PlainBlocks(line: string, rest: seq<string>)
    requires Opens(line).None?
    ensures FencedBlocks([line] + rest) == FencedBlocks(rest)
  {
  }

  lemma {:induction false} InsideUntil(body: seq<string>, closing: string, rest: seq<string>, fence: Fence)
    requires Closes(closing, fence) && forall line | line in body :: !Closes(line, fence)
    ensures Inside(body + [closing] + rest, fence) == body
  {
    if body != [] {
      assert (body + [closing] + rest)[1..] == body[1..] + [closing] + rest;
      InsideUntil(body[1..], closing, rest, fence);
    }
  }

  lemma BlockOf(opening: string, body: seq<string>, closing: string, rest: seq<string>)
    requires Opens(opening).Some? && Closes(closing, Opens(opening).value)
    requires forall line | line in body :: !Closes(line, Opens(opening).value)
    ensures FencedBlocks([opening] + (body + [closing] + rest)) == [body] + FencedBlocks(rest)
  {
    var lines := [opening] + (body + [closing] + rest);
    assert lines[1..] == body + [closing] + rest;
    InsideUntil(body, closing, rest, Opens(opening).value);
    assert lines[|body| + 2..] == rest;
  }

  lemma FenceOpens(n: nat, info: string)
    requires n >= 3 && info != "" && info[0] != '`' && '`' !in info
    ensures Opens(Repeat('`', n) + info) == Some(Fence('`', n))
  {
    var line := Repeat('`', n) + info;
    RunOfRepeat('`', n, info);
    assert RunLength(line, ' ') == 0;
    assert line[0..] == line;
    assert line[0 + n..] == info;
  }

  // ---------------------------------------------------------------- the document

  function SectionLines(file: LicenseFile): seq<string> {
    ["", "### " + file.path, "", FenceFor(file.text) + "text"] + Lines(file.text + "\n") + [FenceFor(file.text)]
  }

  lemma SectionBlocks(file: LicenseFile)
    ensures AllClosed(SectionLines(file), [Lines(file.text + "\n")])
  {
    var fence, body := FenceFor(file.text), Lines(file.text + "\n");
    FenceExceedsRuns(file.text);
    FenceOpens(|fence|, "text");
    assert fence == Repeat('`', |fence|);
    forall line | line in body ensures !Closes(line, Fence('`', |fence|)) {
      NoLineCloses(file.text, line);
    }
    forall rest ensures Follow(SectionLines(file), [body], rest) {
      BlockOf(fence + "text", body, fence, rest);
      SkipTitle("### " + file.path, [fence + "text"] + (body + [fence] + rest));
      SectionAndRest("### " + file.path, fence + "text", body, fence, rest);
    }
  }

  lemma SectionAndRest(title: string, opening: string, body: seq<string>, closing: string, rest: seq<string>)
    ensures ["", title, "", opening] + body + [closing] + rest
         == [""] + ([title] + ([""] + ([opening] + (body + [closing] + rest))))
  {
  }

  lemma SkipTitle(title: string, rest: seq<string>)
    requires title != "" && title[0] !in " `~"
    ensures FencedBlocks([""] + ([title] + ([""] + rest))) == FencedBlocks(rest)
  {
    PlainLine("");
    PlainLine(title);
    PlainBlocks("", [title] + ([""] + rest));
    PlainBlocks(title, [""] + rest);
    PlainBlocks("", rest);
  }

  lemma LinesOfParts(a: string, b: string, c: string, d: string, e: string, f: string)
    requires forall part | part in [a, b, c, d, e] :: part != "" && part[|part| - 1] == '\n'
    ensures Lines(a + (b + (c + (d + (e + f))))) == Lines(a) + (Lines(b) + (Lines(c) + (Lines(d) + (Lines(e) + Lines(f)))))
  {
    LinesOfConcat(e, f);
    LinesOfConcat(d, e + f);
    LinesOfConcat(c, d + (e + f));
    LinesOfConcat(b, c + (d + (e + f)));
    LinesOfConcat(a, b + (c + (d + (e + f))));
  }

  lemma LinesOfSection(file: LicenseFile)
    requires SingleLine(file.path)
    ensures Lines(Section(file)) == SectionLines(file)
    ensures Section(file) != "" && Section(file)[|Section(file)| - 1] == '\n'
  {
    var fence := FenceFor(file.text);
    var opening := fence + "text";
    BlankLine();
    OneLine("### " + file.path);
    OneLine(opening);
    OneLine(fence);
    SectionInParts(file.path, fence, file.text);
    LinesOfParts("\n", "### " + file.path + "\n", "\n", opening + "\n", file.text + "\n", fence + "\n");
    ListInParts("### " + file.path, opening, Lines(file.text + "\n"), fence);
  }

  lemma BlankLine()
    ensures Lines("\n") == [""]
  {
  }

  lemma ListInParts(title: string, opening: string, body: seq<string>, closing: string)
    ensures [""] + ([title] + ([""] + ([opening] + (body + [closing])))) == ["", title, "", opening] + body + [closing]
  {
  }

  lemma SectionInParts(path: string, fence: string, text: string)
    ensures "\n### " + path + "\n\n" + fence + "text\n" + text + "\n" + fence + "\n"
         == "\n" + ("### " + path + "\n" + ("\n" + (fence + "text" + "\n" + (text + "\n" + (fence + "\n")))))
  {
  }

  // ---------------------------------------------------------------- part by part

  lemma {:induction false} PlainPrefix(lines: seq<string>, rest: seq<string>)
    requires forall line | line in lines :: Opens(line).None?
    ensures FencedBlocks(lines + rest) == FencedBlocks(rest)
  {
    if lines == [] {
      assert lines + rest == rest;
    } else {
      PlainPrefix(lines[1..], rest);
      PlainBlocks(lines[0], lines[1..] + rest);
      assert lines + rest == [lines[0]] + (lines[1..] + rest);
    }
  }

  lemma PlainLinesShowNothing(lines: seq<string>)
    requires forall line | line in lines :: Opens(line).None?
    ensures AllClosed(lines, [])
  {
    forall rest ensures Follow(lines, [], rest) {
      PlainPrefix(lines, rest);
    }
  }

  lemma AppendPart(document: string, blocks: seq<seq<string>>, part: string, more: seq<seq<string>>)
    requires Shows(document, blocks) && AllClosed(Lines(part), more)
    requires part != "" && part[|part| - 1] == '\n'
    ensures Shows(document + part, blocks + more)
  {
    LinesOfConcat(document, part);
    AllClosedConcat(Lines(document), blocks, Lines(part), more);
    EndsWithPart(document, part);
  }

  lemma EndsWithPart(document: string, part: string)
    requires part != "" && part[|part| - 1] == '\n'
    ensures EndsLine(document + part)
  {
  }

  lemma ConcatOneMore(parts: seq<string>, part: string)
    ensures Concat(parts + [part]) == Concat(parts) + part
  {
  }

  lemma AllClosedConcat(lines: seq<string>, blocks: seq<seq<string>>, lines': seq<string>, more: seq<seq<string>>)
    requires AllClosed(lines, blocks) && AllClosed(lines', more)
    ensures AllClosed(lines + lines', blocks + more)
  {
    forall rest ensures Follow(lines + lines', blocks + more, rest) {
      assert Follow(lines', more, rest) && Follow(lines, blocks, lines' + rest);
      Associate(lines, lines', rest);
      assert blocks + (more + FencedBlocks(rest)) == blocks + more + FencedBlocks(rest);
    }
  }

  lemma AppendPlain(document: string, part: string)
    requires Shows(document, []) && part != "" && part[|part| - 1] == '\n'
    requires forall line | line in Lines(part) :: Opens(line).None?
    ensures Shows(document + part, [])
  {
    var none: seq<seq<string>> := [];
    PlainLinesShowNothing(Lines(part));
    assert none + none == none;
    AppendPart(document, none, part, none);
  }

  lemma ShowsOneMore(document: string, files: seq<LicenseFile>, file: LicenseFile)
    requires Shows(document, Texts(files)) && SingleLine(file.path)
    ensures Shows(document + Section(file), Texts(files + [file]))
  {
    LinesOfSection(file);
    SectionBlocks(file);
    AppendPart(document, Texts(files), Section(file), [Lines(file.text + "\n")]);
    assert (files + [file])[..|files|] == files;
  }

  lemma {:induction false} SectionsShow(parts: seq<string>, files: seq<LicenseFile>)
    requires Shows(Concat(parts), []) && forall file | file in files :: SingleLine(file.path)
    ensures Shows(Concat(parts + Sections(files)), Texts(files))
  {
    if files == [] {
      assert parts + Sections(files) == parts;
    } else {
      var before, file := files[..|files| - 1], files[|files| - 1];
      SectionsShow(parts, before);
      assert files == before + [file];
      SectionAppended(parts, before, file);
    }
  }

  lemma SectionAppended(parts: seq<string>, files: seq<LicenseFile>, file: LicenseFile)
    requires Shows(Concat(parts + Sections(files)), Texts(files)) && SingleLine(file.path)
    ensures Shows(Concat(parts + Sections(files + [file])), Texts(files + [file]))
  {
    ShowsOneMore(Concat(parts + Sections(files)), files, file);
    ConcatOneMore(parts + Sections(files), Section(file));
    SectionsOneMore(files, file);
    assert parts + Sections(files + [file]) == parts + Sections(files) + [Section(file)];
  }

  lemma SectionsOneMore(files: seq<LicenseFile>, file: LicenseFile)
    ensures Sections(files + [file]) == Sections(files) + [Section(file)]
  {
  }

  lemma AppendField(document: string, name: string, value: string)
    requires Shows(document, []) && SingleLine(name) && SingleLine(value)
    requires name != "" && name[0] !in " `~"
    ensures Shows(document + Field(name, value), [])
  {
    OneLine(name + value);
    PlainLine(name + value);
    AppendPlain(document, Field(name, value));
  }

  lemma HeaderShows(pkg: PackageLicense)
    requires HeaderIsPlain(pkg)
    ensures Shows(Concat(Header(pkg)), [])
  {
    HeadingShows(pkg);
    OnePart(Heading(pkg));
    FieldsShow([Heading(pkg)], pkg.repository, pkg.homepage);
    AppendNote([Heading(pkg)] + Optional("Repository: ", pkg.repository) + Optional("Homepage: ", pkg.homepage), pkg.files);
  }

  lemma FieldsShow(parts: seq<string>, repository: Option<string>, homepage: Option<string>)
    requires Shows(Concat(parts), [])
    requires (repository.Some? ==> SingleLine(repository.value)) && (homepage.Some? ==> SingleLine(homepage.value))
    ensures Shows(Concat(parts + Optional("Repository: ", repository) + Optional("Homepage: ", homepage)), [])
  {
    AppendOptional(parts, "Repository: ", repository);
    AppendOptional(parts + Optional("Repository: ", repository), "Homepage: ", homepage);
  }

  lemma AppendNote(parts: seq<string>, files: seq<LicenseFile>)
    requires Shows(Concat(parts), [])
    ensures Shows(Concat(parts + NoteFor(files)), [])
  {
    if files == [] {
      NoteIsPlain();
      NoFileShows(Concat(parts), NOTE);
      ConcatOneMore(parts, "\n" + NOTE + "\n");
    } else {
      assert parts + NoteFor(files) == parts;
    }
  }

  lemma OnePart(part: string)
    ensures Concat([part]) == part
  {
  }

  lemma AppendOptional(parts: seq<string>, name: string, value: Option<string>)
    requires Shows(Concat(parts), []) && SingleLine(name) && (value.Some? ==> SingleLine(value.value))
    requires name != "" && name[0] !in " `~"
    ensures Shows(Concat(parts + Optional(name, value)), [])
  {
    if value.Some? {
      AppendField(Concat(parts), name, value.value);
      ConcatOneMore(parts, Field(name, value.value));
    } else {
      assert parts + Optional(name, value) == parts;
    }
  }

  lemma HeadingShows(pkg: PackageLicense)
    requires HeaderIsPlain(pkg)
    ensures Shows(Heading(pkg), [])
  {
    var title, license := "## " + pkg.name + "@" + pkg.version, "SPDX: " + pkg.license;
    assert Heading(pkg) == title + "\n" + ("\n" + (license + "\n")) by {
      assert "\n\nSPDX: " == "\n" + "\n" + "SPDX: ";
    }
    PlainLine(title);
    PlainLine(license);
    ThreeLines(title, license);
    NothingShown();
    AppendPlain("", Heading(pkg));
    assert "" + Heading(pkg) == Heading(pkg);
  }

  lemma ThreeLines(title: string, license: string)
    requires SingleLine(title) && SingleLine(license)
    ensures Lines(title + "\n" + ("\n" + (license + "\n"))) == [title, "", license]
  {
    OneLine(title);
    BlankLine();
    OneLine(license);
    LinesOfConcat("\n", license + "\n");
    LinesOfConcat(title + "\n", "\n" + (license + "\n"));
  }

  lemma NothingShown()
    ensures Shows("", [])
  {
    forall rest ensures Follow(Lines(""), [], rest) {
      assert Lines("") + rest == rest;
    }
  }

  lemma NoteIsPlain()
    ensures SingleLine(NOTE) && Opens(NOTE).None?
  {
    NoteStartsPlain();
    NoteEndsPlain();
    PlainLine(NOTE);
  }

  lemma NoteStartsPlain()
    ensures SingleLine("No license file is shipped" + " in this installed package;")
  {
  }

  lemma NoteEndsPlain()
    ensures SingleLine(" see the SPDX declaration" + " and source above.")
  {
  }

  lemma NoFileShows(document: string, note: string)
    requires Shows(document, []) && SingleLine(note) && Opens(note).None?
    ensures Shows(document + ("\n" + note + "\n"), [])
  {
    BlankLine();
    OneLine(note);
    LinesOfConcat("\n", note + "\n");
    assert "\n" + (note + "\n") == "\n" + note + "\n";
    PlainLine("");
    AppendPlain(document, "\n" + note + "\n");
  }

  // ---------------------------------------------------------------- the metadata lines

  function FieldLines(name: string, value: Option<string>): seq<string> {
    if value.Some? then [name + value.value] else []
  }

  /** What a reader sees before the texts. */
  function MetadataLines(pkg: PackageLicense): seq<string> {
    ["## " + pkg.name + "@" + pkg.version, "", "SPDX: " + pkg.license]
    + FieldLines("Repository: ", pkg.repository) + FieldLines("Homepage: ", pkg.homepage)
    + (if pkg.files == [] then ["", NOTE] else [])
  }

  lemma OptionalReads(parts: seq<string>, name: string, value: Option<string>)
    requires EndsLine(Concat(parts)) && SingleLine(name) && (value.Some? ==> SingleLine(value.value))
    ensures EndsLine(Concat(parts + Optional(name, value)))
    ensures Lines(Concat(parts + Optional(name, value))) == Lines(Concat(parts)) + FieldLines(name, value)
  {
    if value.Some? {
      OneLine(name + value.value);
      LinesOfConcat(Concat(parts), Field(name, value.value));
      ConcatOneMore(parts, Field(name, value.value));
    } else {
      assert parts + Optional(name, value) == parts;
    }
  }

  lemma NoteReads(parts: seq<string>, files: seq<LicenseFile>)
    requires EndsLine(Concat(parts))
    ensures Lines(Concat(parts + NoteFor(files))) == Lines(Concat(parts)) + (if files == [] then ["", NOTE] else [])
  {
    if files == [] {
      NoteIsPlain();
      NoteLines(NOTE);
      LinesOfConcat(Concat(parts), "\n" + NOTE + "\n");
      ConcatOneMore(parts, "\n" + NOTE + "\n");
    } else {
      assert parts + NoteFor(files) == parts;
    }
  }

  lemma NoteLines(note: string)
    requires SingleLine(note)
    ensures Lines("\n" + note + "\n") == ["", note]
  {
    BlankLine();
    OneLine(note);
    LinesOfConcat("\n", note + "\n");
    assert "\n" + (note + "\n") == "\n" + note + "\n";
  }

  lemma HeadingReads(pkg: PackageLicense)
    requires HeaderIsPlain(pkg)
    ensures Lines(Heading(pkg)) == ["## " + pkg.name + "@" + pkg.version, "", "SPDX: " + pkg.license] && EndsLine(Heading(pkg))
  {
    var title, license := "## " + pkg.name + "@" + pkg.version, "SPDX: " + pkg.license;
    assert Heading(pkg) == title + "\n" + ("\n" + (license + "\n")) by {
      assert "\n\nSPDX: " == "\n" + "\n" + "SPDX: ";
    }
    ThreeLines(title, license);
  }

  lemma FieldsRead(parts: seq<string>, a: string, x: Option<string>, b: string, y: Option<string>)
    requires EndsLine(Concat(parts)) && SingleLine(a) && SingleLine(b)
    requires (x.Some? ==> SingleLine(x.value)) && (y.Some? ==> SingleLine(y.value))
    ensures EndsLine(Concat(parts + Optional(a, x) + Optional(b, y)))
    ensures Lines(Concat(parts + Optional(a, x) + Optional(b, y))) == Lines(Concat(parts)) + FieldLines(a, x) + FieldLines(b, y)
  {
    OptionalReads(parts, a, x);
    OptionalReads(parts + Optional(a, x), b, y);
  }

  lemma NamesAreSingleLines()
    ensures SingleLine("Repository: ") && SingleLine("Homepage: ")
  {
  }

  /** With metadata on single lines the part before the texts reads as exactly that metadata. */
  lemma HeaderReads(pkg: PackageLicense)
    requires HeaderIsPlain(pkg)
    ensures Lines(Concat(Header(pkg))) == MetadataLines(pkg)
  {
    HeadingReads(pkg);
    OnePart(Heading(pkg));
    NamesAreSingleLines();
    FieldsRead([Heading(pkg)], "Repository: ", pkg.repository, "Homepage: ", pkg.homepage);
    NoteReads([Heading(pkg)] + Optional("Repository: ", pkg.repository) + Optional("Homepage: ", pkg.homepage), pkg.files);
  }

  lemma AllRead(document: string, blocks: seq<seq<string>>)
    requires Shows(document, blocks)
    ensures FencedBlocks(Lines(document)) == blocks
  {
    assert Follow(Lines(document), blocks, []);
    assert Lines(document) + [] == Lines(document) && FencedBlocks([]) == [];
  }
}
