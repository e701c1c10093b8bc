/**
 * Statistics of an uploaded project: the language of a file extension, the
 * per-extension and per-language file counts gathered over the recursive
 * directory listing, and the frameworks detected from `package.json` and from
 * well-known configuration files at the project root.
 *
 * The listing, the parsed `package.json` and the set of root entries are inputs.
 * Counts keyed by name are kept as JavaScript objects keep them: keys in the
 * order they were first added.
 */
module ProjectStats {
  import opened Wrappers
  import opened JsString
  import SourceListing

  /** `languageMap` of `detectLanguage`: extension to language name. */
  const LanguageMap: map<string, string> := map[
    ".js" := "JavaScript", ".ts" := "TypeScript", ".jsx" := "React", ".tsx" := "React TypeScript",
    ".vue" := "Vue.js", ".py" := "Python", ".java" := "Java", ".c" := "C", ".cpp" := "C++",
    ".cs" := "C#", ".go" := "Go", ".php" := "PHP", ".rb" := "Ruby", ".html" := "HTML",
    ".css" := "CSS", ".scss" := "SCSS", ".less" := "Less"]

  /** `detectLanguage(ext)`: the mapped language, or undefined. */
  function DetectLanguage(ext: string): (r: Option<string>)
    ensures r.Some? <==> ext in LanguageMap
    ensures r.Some? ==> r.value in LanguageMap.Values
  {
    if ext in LanguageMap then Some(LanguageMap[ext]) else None
  }

  /** The seventeen extensions that have a language. */
  lemma LanguageDomain()
    ensures LanguageMap.Keys == {".js", ".ts", ".jsx", ".tsx", ".vue", ".py", ".java", ".c", ".cpp",
                                 ".cs", ".go", ".php", ".rb", ".html", ".css", ".scss", ".less"}
  {
  }

  /** Every extension the source listing collects has a language. */
  lemma ListedSourcesHaveLanguage()
    ensures forall e :: e in SourceListing.SourceExtensions ==> DetectLanguage(e).Some?
  {
  }

  /** Data and documentation files have no language. */
  lemma NoLanguageForDataFiles()
    ensures DetectLanguage(".json") == None && DetectLanguage(".md") == None && DetectLanguage("") == None
  {
  }

  /** One entry of the recursive listing: relative path, whether it is a regular file, its size. */
  datatype Listed = Listed(path: string, isFile: bool, size: nat)

  /** A name-to-count object, keys in insertion order. */
  type Counts = seq<(string, nat)>

  function Keys(c: Counts): (ks: seq<string>)
    ensures |ks| == |c|
  {
    if c == [] then [] else [c[0].0] + Keys(c[1..])
  }

  /** `counts[key] || 0`. */
  function CountFor(c: Counts, key: string): nat {
    if c == [] then 0 else if c[0].0 == key then c[0].1 else CountFor(c[1..], key)
  }

  function Sum(c: Counts): nat {
    if c == [] then 0 else c[0].1 + Sum(c[1..])
  }

  /** `counts[key] = (counts[key] || 0) + 1`. */
  function Bump(c: Counts, key: string): (r: Counts)
    ensures CountFor(r, key) == CountFor(c, key) + 1
    ensures forall k :: k != key ==> CountFor(r, k) == CountFor(c, k)
    ensures Sum(r) == Sum(c) + 1
    ensures Keys(r) == if key in Keys(c) then Keys(c) else Keys(c) + [key]
  {
    if c == [] then [(key, 1)]
    else if c[0].0 == key then [(key, c[0].1 + 1)] + c[1..]
    else [c[0]] + Bump(c[1..], key)
  }

  /** An added key is new, so keys stay distinct. */
  lemma BumpDistinct(c: Counts, key: string)
    requires Distinct(Keys(c))
    ensures Distinct(Keys(Bump(c, key)))
  {
    var ks := Keys(c);
    if key !in ks {
      var r := ks + [key];
      forall i, j | 0 <= i < j < |r| ensures r[i] != r[j] {
        if j == |ks| { assert r[i] == ks[i]; }
      }
    }
  }

  /** What is counted: a regular file other than the project's own metadata file. */
  predicate Counted(f: Listed) {
    f.isFile && f.path != "project.json"
  }

  datatype Stats = Stats(totalFiles: nat, totalSize: nat, fileTypes: Counts, languages: Counts)

  /** The statistics after adding one listed entry. */
  function Step(toLower: CaseMap, s: Stats, f: Listed): Stats {
    if !Counted(f) then s
    else
      var ext := toLower(ExtName(f.path));
      var languages := match DetectLanguage(ext)
        case Some(language) => Bump(s.languages, language)
        case None => s.languages;
      Stats(s.totalFiles + 1, s.totalSize + f.size, Bump(s.fileTypes, ext), languages)
  }

  /** The statistics of a listing, gathered in listing order. */
  function Tally(toLower: CaseMap, files: seq<Listed>): (r: Stats)
    ensures r.totalFiles <= |files|
  {
    if files == [] then Stats(0, 0, [], [])
    else Step(toLower, Tally(toLower, files[..|files| - 1]), files[|files| - 1])
  }

  /** The counting loop of `analyzeProjectStructure`. */
  method CountFiles(toLower: CaseMap, files: seq<Listed>) returns (s: Stats)
    ensures s == Tally(toLower, files)
  {
    s := Stats(0, 0, [], []);
    for i := 0 to |files|
      invariant s == Tally(toLower, files[..i])
    {
      var f := files[i];
      ghost var before := s;
      if f.isFile && f.path != "project.json" {
        var ext := toLower(ExtName(f.path));
        var fileTypes := Bump(s.fileTypes, ext);
        var languages := s.languages;
        var language := DetectLanguage(ext);
        if language.Some? {
          languages := Bump(languages, language.value);
        }
        s := Stats(s.totalFiles + 1, s.totalSize + f.size, fileTypes, languages);
      }
      assert s == Step(toLower, before, f);
      assert files[..i + 1][..i] == files[..i];
    }
    assert files[..|files|] == files;
  }

  /** Number of counted files, and of those whose lower-cased extension is `ext`. */
  function NumCounted(files: seq<Listed>): nat {
    if files == [] then 0
    else NumCounted(files[..|files| - 1]) + (if Counted(files[|files| - 1]) then 1 else 0)
  }

  /** Total size of the counted files. */
  function SizeCounted(files: seq<Listed>): nat {
    if files == [] then 0
    else SizeCounted(files[..|files| - 1]) + (if Counted(files[|files| - 1]) then files[|files| - 1].size else 0)
  }

  function NumWithExt(toLower: CaseMap, files: seq<Listed>, ext: string): nat {
    if files == [] then 0
    else
      var f := files[|files| - 1];
      NumWithExt(toLower, files[..|files| - 1], ext) + (if Counted(f) && toLower(ExtName(f.path)) == ext then 1 else 0)
  }

  /** The totals agree: the file count is the number of counted files, the total size is
      the sum of their sizes, the per-extension counts add up to the file count, the
      per-language counts add up to no more, and no key repeats. */
  lemma {:induction false} TallyConsistent(toLower: CaseMap, files: seq<Listed>)
    ensures var s := Tally(toLower, files);
      && s.totalFiles == NumCounted(files)
      && s.totalSize == SizeCounted(files)
      && Sum(s.fileTypes) == s.totalFiles
      && Sum(s.languages) <= s.totalFiles
      && Distinct(Keys(s.fileTypes))
      && Distinct(Keys(s.languages))
  {
    if files != [] {
      var init := files[..|files| - 1];
      var s0 := Tally(toLower, init);
      TallyConsistent(toLower, init);
      var f := files[|files| - 1];
      if Counted(f) {
        var ext := toLower(ExtName(f.path));
        BumpDistinct(s0.fileTypes, ext);
        match DetectLanguage(ext)
        case Some(language) => BumpDistinct(s0.languages, language);
        case None =>
      }
    }
  }

  /** Each extension's count is the number of counted files with that extension. */
  lemma {:induction false} TallyPerExtension(toLower: CaseMap, files: seq<Listed>, ext: string)
    ensures CountFor(Tally(toLower, files).fileTypes, ext) == NumWithExt(toLower, files, ext)
  {
    if files != [] {
      TallyPerExtension(toLower, files[..|files| - 1], ext);
    }
  }

  /** The parsed `package.json`: absent, failing to parse, or its two dependency objects. */
  datatype PackageJson =
    | NoPackage
    | Unparsable
    | Package(dependencies: map<string, string>, devDependencies: map<string, string>)

  /** Dependency name to framework, in the order they are checked. */
  const DependencyFrameworks: seq<(string, string)> := [
    ("vue", "Vue.js"), ("react", "React"), ("angular", "Angular"), ("express", "Express.js"),
    ("koa", "Koa.js"), ("element-ui", "Element UI"), ("ant-design-vue", "Ant Design Vue")]

  /** Root configuration file to framework, in the order they are checked. */
  const ConfigFrameworks: seq<(string, string)> := [
    ("vue.config.js", "Vue.js"), ("angular.json", "Angular"), ("next.config.js", "Next.js"),
    ("nuxt.config.js", "Nuxt.js")]

  /** `{ ...dependencies, ...devDependencies }[name]` is truthy. */
  predicate DependsOn(pkg: PackageJson, name: string) {
    pkg.Package? &&
    var all := pkg.dependencies + pkg.devDependencies;
    name in all && all[name] != []
  }

  /** The frameworks of the rows whose dependency is declared, in row order. */
  function FromDependencies(pkg: PackageJson, rows: seq<(string, string)>): (r: seq<string>)
    ensures |r| <= |rows|
  {
    if rows == [] then []
    else
      var r := FromDependencies(pkg, rows[..|rows| - 1]);
      if DependsOn(pkg, rows[|rows| - 1].0) then r + [rows[|rows| - 1].1] else r
  }

  /** The configuration-file loop: each present file adds its framework unless already listed. */
  function WithConfigs(found: seq<string>, rows: seq<(string, string)>, rootEntries: set<string>): (r: seq<string>)
    ensures |found| <= |r| <= |found| + |rows|
  {
    if rows == [] then found
    else
      var r := WithConfigs(found, rows[..|rows| - 1], rootEntries);
      var row := rows[|rows| - 1];
      if row.0 in rootEntries && row.1 !in r then r + [row.1] else r
  }

  /** `detectFrameworks` of a project. */
  function Frameworks(pkg: PackageJson, rootEntries: set<string>): (r: seq<string>)
    ensures |r| <= |DependencyFrameworks| + |ConfigFrameworks|
  {
    WithConfigs(FromDependencies(pkg, DependencyFrameworks), ConfigFrameworks, rootEntries)
  }

  method DetectFrameworks(pkg: PackageJson, rootEntries: set<string>) returns (frameworks: seq<string>)
    ensures frameworks == Frameworks(pkg, rootEntries)
  {
    frameworks := FromDependencies(pkg, DependencyFrameworks);
    for i := 0 to |ConfigFrameworks|
      invariant frameworks == WithConfigs(FromDependencies(pkg, DependencyFrameworks), ConfigFrameworks[..i], rootEntries)
    {
      var config := ConfigFrameworks[i];
      if config.0 in rootEntries {
        if config.1 !in frameworks {
          frameworks := frameworks + [config.1];
        }
      }
      assert ConfigFrameworks[..i + 1][..i] == ConfigFrameworks[..i];
    }
    assert ConfigFrameworks[..|ConfigFrameworks|] == ConfigFrameworks;
  }

  /** A framework comes from a declared dependency exactly when some row says so. */
  lemma {:induction false} FromDependenciesMembers(pkg: PackageJson, rows: seq<(string, string)>, name: string)
    ensures name in FromDependencies(pkg, rows) <==>
      exists i :: 0 <= i < |rows| && rows[i].1 == name && DependsOn(pkg, rows[i].0)
  {
    if rows != [] {
      var init := rows[..|rows| - 1];
      FromDependenciesMembers(pkg, init, name);
      if exists i :: 0 <= i < |init| && init[i].1 == name && DependsOn(pkg, init[i].0) {
        var i :| 0 <= i < |init| && init[i].1 == name && DependsOn(pkg, init[i].0);
        assert rows[i] == init[i];
      }
      if exists i :: 0 <= i < |rows| && rows[i].1 == name && DependsOn(pkg, rows[i].0) {
        var i :| 0 <= i < |rows| && rows[i].1 == name && DependsOn(pkg, rows[i].0);
        if i < |init| { assert init[i] == rows[i]; }
      }
    }
  }

  /** Rows naming different frameworks give a list without repetitions. */
  lemma {:induction false} FromDependenciesDistinct(pkg: PackageJson, rows: seq<(string, string)>)
    requires forall i, j :: 0 <= i < j < |rows| ==> rows[i].1 != rows[j].1
    ensures Distinct(FromDependencies(pkg, rows))
  {
    if rows != [] {
      var init := rows[..|rows| - 1];
      var last := rows[|rows| - 1];
      FromDependenciesDistinct(pkg, init);
      var r := FromDependencies(pkg, init);
      if DependsOn(pkg, last.0) {
        assert last.1 !in r by {
          FromDependenciesMembers(pkg, init, last.1);
          assert forall i :: 0 <= i < |init| ==> init[i].1 == rows[i].1;
        }
        var r2 := r + [last.1];
        forall i, j | 0 <= i < j < |r2| ensures r2[i] != r2[j] {
          if j == |r| { assert r2[i] == r[i]; }
        }
      }
    }
  }

  /** The configuration loop adds only absent names, so it keeps a list free of repetitions. */
  lemma {:induction false} WithConfigsDistinct(found: seq<string>, rows: seq<(string, string)>, rootEntries: set<string>)
    requires Distinct(found)
    ensures Distinct(WithConfigs(found, rows, rootEntries))
  {
    if rows != [] {
      var r := WithConfigs(found, rows[..|rows| - 1], rootEntries);
      WithConfigsDistinct(found, rows[..|rows| - 1], rootEntries);
      var row := rows[|rows| - 1];
      if row.0 in rootEntries && row.1 !in r {
        var r2 := r + [row.1];
        forall i, j | 0 <= i < j < |r2| ensures r2[i] != r2[j] {
          if j == |r| { assert r2[i] == r[i]; }
        }
      }
    }
  }

  /** The configuration loop keeps what was found first, and adds a name exactly when a
      row with a present file names it. */
  lemma {:induction false} WithConfigsMembers(found: seq<string>, rows: seq<(string, string)>, rootEntries: set<string>, name: string)
    ensures found <= WithConfigs(found, rows, rootEntries)
    ensures name in WithConfigs(found, rows, rootEntries) <==>
      name in found || exists i :: 0 <= i < |rows| && rows[i].1 == name && rows[i].0 in rootEntries
  {
    if rows != [] {
      var init := rows[..|rows| - 1];
      WithConfigsMembers(found, init, rootEntries, name);
      if exists i :: 0 <= i < |init| && init[i].1 == name && init[i].0 in rootEntries {
        var i :| 0 <= i < |init| && init[i].1 == name && init[i].0 in rootEntries;
        assert rows[i] == init[i];
      }
      if exists i :: 0 <= i < |rows| && rows[i].1 == name && rows[i].0 in rootEntries {
        var i :| 0 <= i < |rows| && rows[i].1 == name && rows[i].0 in rootEntries;
        if i < |init| { assert init[i] == rows[i]; }
      }
    }
  }

  /** The detected frameworks have no repetitions, start with the dependency frameworks in
      table order, and hold a name exactly when a declared dependency or a present
      configuration file names it. */
  lemma DetectedFrameworks(pkg: PackageJson, rootEntries: set<string>, name: string)
    ensures Distinct(Frameworks(pkg, rootEntries))
    ensures FromDependencies(pkg, DependencyFrameworks) <= Frameworks(pkg, rootEntries)
    ensures name in Frameworks(pkg, rootEntries) <==>
      (exists i :: 0 <= i < |DependencyFrameworks| && DependencyFrameworks[i].1 == name && DependsOn(pkg, DependencyFrameworks[i].0)) ||
      (exists i :: 0 <= i < |ConfigFrameworks| && ConfigFrameworks[i].1 == name && ConfigFrameworks[i].0 in rootEntries)
  {
    var d := DependencyFrameworks;
    assert forall i, j :: 0 <= i < j < |d| ==> d[i].1 != d[j].1;
    FromDependenciesDistinct(pkg, d);
    WithConfigsDistinct(FromDependencies(pkg, d), ConfigFrameworks, rootEntries);
    FromDependenciesMembers(pkg, d, name);
    WithConfigsMembers(FromDependencies(pkg, d), ConfigFrameworks, rootEntries, name);
  }

  /** Without a readable `package.json` no framework comes from dependencies. */
  lemma {:induction false} NoPackageNoDependencies(pkg: PackageJson, rows: seq<(string, string)>)
    requires !pkg.Package?
    ensures FromDependencies(pkg, rows) == []
  {
    if rows != [] {
      NoPackageNoDependencies(pkg, rows[..|rows| - 1]);
    }
  }
}
