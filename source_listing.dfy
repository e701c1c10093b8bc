/**
 * The source-code listing behind the "program material" document: a walk of an
 * uploaded project's directory tree that collects source files, orders them by
 * path, concatenates them into one list of lines (a header line per file, then
 * its lines, then a blank line) and keeps the first `frontPages` and the last
 * `backPages` pages of that list.
 *
 * The directory tree is an input value (`Entry`), listed in the order the
 * directory listing gives; a file whose read fails has no content.
 */
module SourceListing {
  import opened Wrappers
  import opened JsString
  import Sorting

  /** A directory entry: a file (its content, or None when reading it fails) or a sub-directory. */
  datatype Entry =
    | FileEntry(name: string, content: Option<string>)
    | DirEntry(name: string, children: seq<Entry>)

  /** A collected source file: its path relative to the project root and its text. */
  datatype SourceFile = SourceFile(path: string, content: string)

  /** Extensions (after lower-casing) of the files that are collected. */
  const SourceExtensions: seq<string> :=
    [".js", ".ts", ".jsx", ".tsx", ".vue", ".py", ".java", ".c", ".cpp", ".cs", ".go", ".php", ".rb"]

  /** Directories that are never entered. */
  const SkippedDirs: seq<string> := ["node_modules", ".git", "dist", "build", ".vscode"]

  /** The project's own metadata file and every hidden entry are passed over. */
  predicate Passed(name: string) {
    name == "project.json" || StartsWith(name, ".")
  }

  /** `path.join(base, name)` for a plain entry name. */
  function JoinPath(base: string, name: string): string {
    if base == [] then name else base + "/" + name
  }

  predicate IsSource(toLower: CaseMap, name: string) {
    toLower(ExtName(name)) in SourceExtensions
  }

  /** The files the walk collects from `items`, in listing order, with paths under `base`. */
  function Found(toLower: CaseMap, items: seq<Entry>, base: string): seq<SourceFile>
    decreases items
  {
    if items == [] then [] else FoundIn(toLower, items[0], base) + Found(toLower, items[1..], base)
  }

  function FoundIn(toLower: CaseMap, e: Entry, base: string): seq<SourceFile>
    decreases e
  {
    if Passed(e.name) then []
    else match e
      case DirEntry(name, children) =>
        if name in SkippedDirs then [] else Found(toLower, children, JoinPath(base, name))
      case FileEntry(name, content) =>
        if IsSource(toLower, name) && content.Some? then [SourceFile(JoinPath(base, name), content.value)] else []
  }

  lemma {:induction false} FoundAppend(toLower: CaseMap, a: seq<Entry>, b: seq<Entry>, base: string)
    ensures Found(toLower, a + b, base) == Found(toLower, a, base) + Found(toLower, b, base)
  {
    if a == [] {
      assert a + b == b;
    } else {
      assert (a + b)[0] == a[0];
      assert (a + b)[1..] == a[1..] + b;
      FoundAppend(toLower, a[1..], b, base);
    }
  }

  /** The recursive walk: appends to `acc` what it collects from `items`. */
  method FindSourceFiles(toLower: CaseMap, items: seq<Entry>, base: string, acc: seq<SourceFile>)
    returns (r: seq<SourceFile>)
    ensures r == acc + Found(toLower, items, base)
    decreases items
  {
    r := acc;
    for i := 0 to |items|
      invariant r == acc + Found(toLower, items[..i], base)
    {
      var item := items[i];
      r := Visit(toLower, item, base, r);
      assert items[..i + 1] == items[..i] + [item];
      FoundAppend(toLower, items[..i], [item], base);
      assert Found(toLower, [item], base) == FoundIn(toLower, item, base);
    }
    assert items[..|items|] == items;
  }

  /** One step of the walk: descend into a directory, or collect a readable source file. */
  method Visit(toLower: CaseMap, item: Entry, base: string, acc: seq<SourceFile>) returns (r: seq<SourceFile>)
    ensures r == acc + FoundIn(toLower, item, base)
    decreases item
  {
    r := acc;
    if !Passed(item.name) {
      match item
      case DirEntry(name, children) =>
        if name !in SkippedDirs {
          r := FindSourceFiles(toLower, children, JoinPath(base, name), r);
        }
      case FileEntry(name, content) =>
        if IsSource(toLower, name) && content.Some? {
          r := r + [SourceFile(JoinPath(base, name), content.value)];
        }
    }
  }

  /** Directory entry names as a directory listing gives them: non-empty and without a slash. */
  predicate WellNamed(items: seq<Entry>)
    decreases items
  {
    forall k :: 0 <= k < |items| ==> WellNamedEntry(items[k])
  }

  predicate WellNamedEntry(e: Entry)
    decreases e
  {
    e.name != [] && '/' !in e.name && (e.DirEntry? ==> WellNamed(e.children))
  }

  /** Whatever follows the last slash is the final name. */
  lemma {:induction false} AfterLastSlashOfSuffix(prefix: string, name: string)
    requires '/' !in name
    requires prefix == [] || prefix[|prefix| - 1] == '/'
    ensures AfterLastSlash(prefix + name) == name
    decreases |name|
  {
    if name == [] {
      assert prefix + name == prefix;
    } else {
      var init := name[..|name| - 1];
      assert (prefix + name)[..|prefix + name| - 1] == prefix + init;
      AfterLastSlashOfSuffix(prefix, init);
      assert name == init + [name[|name| - 1]];
    }
  }

  /** `path.extname` of a joined path is that of its last name. */
  lemma ExtNameOfJoin(base: string, name: string)
    requires name != [] && '/' !in name
    ensures ExtName(JoinPath(base, name)) == ExtName(name)
  {
    var p := JoinPath(base, name);
    var prefix := if base == [] then [] else base + "/";
    assert p == prefix + name;
    assert p[|p| - 1] == name[|name| - 1];
    assert StripTrailingSlashes(p) == p;
    AfterLastSlashOfSuffix(prefix, name);
    assert StripTrailingSlashes(name) == name;
    AfterLastSlashOfSuffix([], name);
    assert [] + name == name;
  }

  /** Only source files are collected: every collected path has one of the source extensions. */
  lemma {:induction false} FoundAreSources(toLower: CaseMap, items: seq<Entry>, base: string)
    requires WellNamed(items)
    ensures forall f :: f in Found(toLower, items, base) ==> toLower(ExtName(f.path)) in SourceExtensions
    decreases items
  {
    if items != [] {
      assert WellNamedEntry(items[0]);
      FoundInAreSources(toLower, items[0], base);
      FoundAreSources(toLower, items[1..], base);
    }
  }

  lemma {:induction false} FoundInAreSources(toLower: CaseMap, e: Entry, base: string)
    requires WellNamedEntry(e)
    ensures forall f :: f in FoundIn(toLower, e, base) ==> toLower(ExtName(f.path)) in SourceExtensions
    decreases e
  {
    if !Passed(e.name) {
      match e
      case DirEntry(name, children) =>
        if name !in SkippedDirs {
          FoundAreSources(toLower, children, JoinPath(base, name));
        }
      case FileEntry(name, content) =>
        ExtNameOfJoin(base, name);
    }
  }

  /** Nothing is collected from a hidden entry, `project.json`, or a skipped directory. */
  lemma PassedContributeNothing(toLower: CaseMap, e: Entry, base: string)
    requires Passed(e.name) || (e.DirEntry? && e.name in SkippedDirs)
    ensures FoundIn(toLower, e, base) == []
  {
  }

  /** `a.path.localeCompare(b.path) <= 0`. */
  predicate PathLe(a: SourceFile, b: SourceFile) {
    Sorting.CodeUnitLe(a.path, b.path)
  }

  lemma PathOrder()
    ensures Sorting.Total(PathLe) && Sorting.Transitive(PathLe)
  {
    forall a: SourceFile, b: SourceFile ensures PathLe(a, b) || PathLe(b, a) {
      Sorting.CodeUnitTotal(a.path, b.path);
    }
    forall a: SourceFile, b: SourceFile, c: SourceFile | PathLe(a, b) && PathLe(b, c) ensures PathLe(a, c) {
      Sorting.CodeUnitTransitive(a.path, b.path, c.path);
    }
  }

  /** The lines a file contributes: a header naming it, its lines, a blank separator. */
  function Block(f: SourceFile): seq<string> {
    ["// 文件: " + f.path] + Split(f.content, '\n') + [""]
  }

  /** All files' blocks, one after the other. */
  function Listing(files: seq<SourceFile>): seq<string> {
    if files == [] then [] else Listing(files[..|files| - 1]) + Block(files[|files| - 1])
  }

  /** The per-file summary the extraction reports: path and number of lines. */
  datatype FileSummary = FileSummary(path: string, lines: nat)

  /** `files.map(...)`: one summary per file, in order, with its path and its number of lines. */
  function Summaries(files: seq<SourceFile>): (r: seq<FileSummary>)
    ensures |r| == |files|
    ensures forall i :: 0 <= i < |files| ==> r[i] == FileSummary(files[i].path, |Split(files[i].content, '\n')|)
  {
    if files == [] then []
    else
      var front := Summaries(files[..|files| - 1]);
      assert forall i :: 0 <= i < |files| - 1 ==> files[..|files| - 1][i] == files[i];
      front + [FileSummary(files[|files| - 1].path, |Split(files[|files| - 1].content, '\n')|)]
  }

  /** Lines of all summarised files plus their header and separator lines. */
  function BlockLines(s: seq<FileSummary>): nat {
    if s == [] then 0 else BlockLines(s[..|s| - 1]) + s[|s| - 1].lines + 2
  }

  /** The loop that concatenates the files' blocks. */
  method CollectLines(files: seq<SourceFile>) returns (lines: seq<string>)
    ensures lines == Listing(files)
  {
    lines := [];
    for i := 0 to |files|
      invariant lines == Listing(files[..i])
    {
      var f := files[i];
      lines := lines + ["// 文件: " + f.path];
      lines := lines + Split(f.content, '\n');
      lines := lines + [""];
      assert files[..i + 1][..i] == files[..i];
    }
    assert files[..|files|] == files;
  }

  /** The listing is as long as the summaries say: every file's lines plus two. */
  lemma {:induction false} ListingLength(files: seq<SourceFile>)
    ensures |Listing(files)| == BlockLines(Summaries(files))
  {
    if files != [] {
      ListingLength(files[..|files| - 1]);
      var s := Summaries(files);
      assert s[..|s| - 1] == Summaries(files[..|files| - 1]);
    }
  }

  /** Each file's block sits in the listing right after the blocks of the files before it. */
  lemma {:induction false} ListingHasBlock(files: seq<SourceFile>, k: nat)
    requires k < |files|
    ensures Listing(files[..k]) + Block(files[k]) <= Listing(files)
    decreases |files|
  {
    if k < |files| - 1 {
      var init := files[..|files| - 1];
      assert init[..k] == files[..k] && init[k] == files[k];
      ListingHasBlock(init, k);
    } else {
      assert files[..k] == files[..|files| - 1];
    }
  }

  /** A file's text can be read back from its block: joining the lines between header and separator. */
  lemma BlockRoundTrip(f: SourceFile)
    ensures var b := Block(f); Join(b[1..|b| - 1], "\n") == f.content
  {
    var b := Block(f);
    assert b[1..|b| - 1] == Split(f.content, '\n');
    JoinSplit(f.content, '\n');
  }

  /** Page options; the unused `maxLines` is kept for completeness. */
  datatype Options = Options(maxLines: int, frontPages: nat, backPages: nat, linesPerPage: nat)

  const DefaultOptions: Options := Options(3000, 30, 30, 50)

  /** The `options` object of the request body: a field the client left out is `None`. */
  datatype RequestOptions = RequestOptions(maxLines: Option<int>, frontPages: Option<nat>, backPages: Option<nat>,
                                           linesPerPage: Option<nat>)

  /** `options = {}` in the request body: no field given. */
  const NoOptions: RequestOptions := RequestOptions(None, None, None, None)

  /** `const { maxLines = 3000, frontPages = 30, backPages = 30, linesPerPage = 50 } = options`: each field given is kept, each one left out takes its default. */
  function Resolve(given: RequestOptions): (o: Options)
    ensures given.maxLines.Some? ==> o.maxLines == given.maxLines.value
    ensures given.maxLines.None? ==> o.maxLines == DefaultOptions.maxLines
    ensures given.frontPages.Some? ==> o.frontPages == given.frontPages.value
    ensures given.frontPages.None? ==> o.frontPages == DefaultOptions.frontPages
    ensures given.backPages.Some? ==> o.backPages == given.backPages.value
    ensures given.backPages.None? ==> o.backPages == DefaultOptions.backPages
    ensures given.linesPerPage.Some? ==> o.linesPerPage == given.linesPerPage.value
    ensures given.linesPerPage.None? ==> o.linesPerPage == DefaultOptions.linesPerPage
  {
    Options(given.maxLines.GetOr(3000), given.frontPages.GetOr(30), given.backPages.GetOr(30),
            given.linesPerPage.GetOr(50))
  }

  /** A request without options cuts 30 pages of 50 lines at each end: 1500 lines per window. */
  lemma NoOptionsWindows()
    ensures Resolve(NoOptions) == DefaultOptions
    ensures FrontEnd(Resolve(NoOptions)) == 1500
    ensures Resolve(NoOptions).backPages * Resolve(NoOptions).linesPerPage == 1500
  {
  }

  /** `Math.ceil(total / linesPerPage)`: a page count, or a non-number when there are no lines per page. */
  datatype PageCount = Pages(n: nat) | Infinite | NotANumber

  function CeilDiv(total: nat, per: nat): (p: PageCount)
    ensures per > 0 ==> p.Pages? && total <= p.n * per && (p.n == 0 || (p.n - 1) * per < total)
    ensures per == 0 ==> (p == Infinite <==> total > 0) && (p == NotANumber <==> total == 0)
  {
    if per == 0 then (if total > 0 then Infinite else NotANumber)
    else Pages((total + per - 1) / per)
  }

  datatype Extract = Extract(
    frontLines: seq<string>,
    backLines: seq<string>,
    totalLines: nat,
    totalPages: PageCount,
    sourceFiles: seq<FileSummary>)

  /** Index where the front window ends: `frontPages * linesPerPage`. */
  function FrontEnd(o: Options): nat {
    o.frontPages * o.linesPerPage
  }

  /** Index where the back window starts, never before the front window's end. */
  function BackStart(total: nat, o: Options): nat {
    var b := total - o.backPages * o.linesPerPage;
    if b > FrontEnd(o) then b else FrontEnd(o)
  }

  /** `all.slice(0, FrontEnd)` and `all.slice(BackStart)`. */
  function Windows(all: seq<string>, o: Options): (w: (seq<string>, seq<string>)) {
    var fe := if FrontEnd(o) < |all| then FrontEnd(o) else |all|;
    var bs := if BackStart(|all|, o) < |all| then BackStart(|all|, o) else |all|;
    (all[..fe], all[bs..])
  }

  /** What the extraction returns for a project tree. */
  function Extraction(toLower: CaseMap, root: seq<Entry>, o: Options): (r: Extract)
    ensures |r.frontLines| + |r.backLines| <= r.totalLines
    ensures |r.frontLines| <= FrontEnd(o) && |r.backLines| <= o.backPages * o.linesPerPage
  {
    var files := Sorting.Sort(Found(toLower, root, ""), PathLe);
    var all := Listing(files);
    var w := Windows(all, o);
    Extract(w.0, w.1, |all|, CeilDiv(|all|, o.linesPerPage), Summaries(files))
  }

  /** The two slices of the listing. */
  method CutWindows(all: seq<string>, o: Options) returns (front: seq<string>, back: seq<string>)
    ensures (front, back) == Windows(all, o)
  {
    var fe := o.frontPages * o.linesPerPage;
    var bs := |all| - o.backPages * o.linesPerPage;
    if bs < fe {
      bs := fe;
    }
    front := if fe < |all| then all[..fe] else all;
    back := if bs < |all| then all[bs..] else [];
    assert all[..|all|] == all && all[|all|..] == [];
    assert bs == BackStart(|all|, o);
  }

  /** `extractSourceCode`: walk, sort by path, concatenate, cut the two windows. */
  method ExtractSourceCode(toLower: CaseMap, root: seq<Entry>, given: RequestOptions) returns (r: Extract)
    ensures r == Extraction(toLower, root, Resolve(given))
  {
    var o := Resolve(given);
    var found := FindSourceFiles(toLower, root, "", []);
    assert found == Found(toLower, root, "");
    var files := Sorting.Sort(found, PathLe);
    var all := CollectLines(files);
    var front, back := CutWindows(all, o);
    r := Extract(front, back, |all|, CeilDiv(|all|, o.linesPerPage), Summaries(files));
  }

  /** The listed files are exactly the collected ones, ordered by path. */
  lemma ExtractionFiles(toLower: CaseMap, root: seq<Entry>, o: Options)
    ensures var files := Sorting.Sort(Found(toLower, root, ""), PathLe);
      && multiset(files) == multiset(Found(toLower, root, ""))
      && Sorting.Sorted(files, PathLe)
      && Extraction(toLower, root, o).sourceFiles == Summaries(files)
      && Extraction(toLower, root, o).totalLines == BlockLines(Summaries(files))
  {
    var files := Sorting.Sort(Found(toLower, root, ""), PathLe);
    Sorting.SortPermutation(Found(toLower, root, ""), PathLe);
    PathOrder();
    Sorting.SortSorted(Found(toLower, root, ""), PathLe);
    ListingLength(files);
  }

  /** The front window is a prefix of at most `frontPages` pages; the back window a suffix
      of at most `backPages` pages that starts no earlier than the front window ends. */
  lemma WindowsShape(all: seq<string>, o: Options)
    ensures var (front, back) := Windows(all, o);
      && front <= all
      && |front| == (if FrontEnd(o) < |all| then FrontEnd(o) else |all|)
      && back == all[|all| - |back|..]
      && |back| <= o.backPages * o.linesPerPage
      && |front| + |back| <= |all|
  {
  }

  /** When the listing fits in the two windows, they cover it exactly, without overlap. */
  lemma WindowsCoverShort(all: seq<string>, o: Options)
    requires |all| <= (o.frontPages + o.backPages) * o.linesPerPage
    ensures Windows(all, o).0 + Windows(all, o).1 == all
  {
    var (front, back) := Windows(all, o);
    if FrontEnd(o) < |all| {
      assert BackStart(|all|, o) == FrontEnd(o);
      assert front + back == all[..FrontEnd(o)] + all[FrontEnd(o)..];
    } else {
      assert back == [];
    }
  }

  /** When the listing is longer, both windows are full and the middle is left out. */
  lemma WindowsLong(all: seq<string>, o: Options)
    requires |all| > (o.frontPages + o.backPages) * o.linesPerPage
    ensures |Windows(all, o).0| == o.frontPages * o.linesPerPage
    ensures |Windows(all, o).1| == o.backPages * o.linesPerPage
  {
    assert (o.frontPages + o.backPages) * o.linesPerPage == FrontEnd(o) + o.backPages * o.linesPerPage;
  }
}
