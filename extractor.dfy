/** `extract_project_info` and `detect_docs_structure`: what the initializer
    learns from an existing CLAUDE.md and from the project's `docs/` directory. */
module Extractor {
  import opened Options
  import opened Text
  import opened Fs
  import opened Layout

  /** The `info` dict: project name, identity text, service table rows and key paths. */
  datatype ProjectInfo = ProjectInfo(
    name: string,
    identity: string,
    keyServices: seq<(string, string)>,
    keyPaths: seq<string>)

  /** What CLAUDE.md yields to the two regular expressions this model leaves
      opaque (the purpose section's group and the service-table rows found by
      `re.findall`), and the order in which Python's `set` hands out the key
      paths. */
  datatype ClaudeMatches = ClaudeMatches(
    purpose: Option<string>,
    services: seq<(string, string)>,
    keyPathOrder: seq<string>)

  /** The dict `extract_project_info` starts from and returns when there is no CLAUDE.md. */
  const DefaultInfo := ProjectInfo("Unknown Project", "", [], [])

  const IdentityCap := 200
  const ServicesCap := 5
  const KeyPathsCap := 10
  const ExtractionsCap := 20

  // ---- the title: re.search(r'^#\s+(.+)$', content, re.MULTILINE) ----

  /** The match of `^#\s+(.+)$` (multi-line mode) at position `i`, as the
      stripped group. `\s+` is greedy and may run over line breaks; when it
      reaches the end of the text it gives back one whitespace character to
      `(.+)`, which then strips to the empty string. */
  function HeadingAt(s: string, i: nat): (title: Option<string>)
    ensures title.Some? ==>
      i + 1 < |s| && s[i] == '#' && (i == 0 || s[i - 1] == '\n') && IsSpace(s[i + 1])
  {
    if i < |s| && s[i] == '#' && (i == 0 || s[i - 1] == '\n') then
      var j := SkipSpace(s, i + 1);
      if j == i + 1 then None
      else if j < |s| then Some(Strip(s[j..FindFrom(s, '\n', j)]))
      else if exists k :: i + 2 <= k < j && s[k] != '\n' then Some("")
      else None
    else None
  }

  /** A `#` at the start of a line, then whitespace up to a character that is
      not whitespace, always matches: the title is the rest of that line,
      stripped. */
  lemma HeadingTitle(s: string, i: nat, j: nat, e: nat)
    requires i < |s| && s[i] == '#' && (i == 0 || s[i - 1] == '\n')
    requires i + 1 < j < |s| && j <= e <= |s| && !IsSpace(s[j])
    requires forall k :: i + 1 <= k < j ==> IsSpace(s[k])
    requires forall k :: j <= k < e ==> s[k] != '\n'
    requires e == |s| || s[e] == '\n'
    ensures HeadingAt(s, i) == Some(Strip(s[j..e]))
  {
    assert SkipSpace(s, i + 1) == j;
    assert FindFrom(s, '\n', j) == e;
  }

  /** The stripped title of the first first-level heading, if any. */
  function TitleMatch(content: string): (title: Option<string>)
    ensures title.None? <==> forall i :: 0 <= i < |content| ==> HeadingAt(content, i).None?
    ensures title.Some? ==>
      exists i :: 0 <= i < |content| && HeadingAt(content, i) == title && forall j :: 0 <= j < i ==> HeadingAt(content, j).None?
  {
    SearchReportsAMatch(content, HeadingAt);
    Search(content, HeadingAt)
  }

  /** A document that opens with `# <title>` on its first line is named by that title. */
  lemma TitleOfOpeningHeading(title: string, rest: string)
    requires title != [] && !IsSpace(title[0]) && !IsSpace(title[|title| - 1])
    requires '\n' !in title
    ensures TitleMatch("# " + title + "\n" + rest) == Some(title)
  {
    var s := "# " + title + "\n" + rest;
    assert s[0] == '#' && s[1] == ' ' && s[2] == title[0];
    assert SkipSpace(s, 1) == 2;
    var e := 2 + |title|;
    assert s[e] == '\n';
    assert forall k :: 2 <= k < e ==> s[k] == title[k - 2];
    assert FindFrom(s, '\n', 2) == e;
    assert s[2..e] == title;
    StripUnchanged(title);
    assert HeadingAt(s, 0) == Some(title);
  }

  /** Because `\s+` crosses line breaks, a bare `#` line names the project after
      the next line. */
  lemma BareHashTakesNextLine(title: string)
    requires title != [] && !IsSpace(title[0]) && !IsSpace(title[|title| - 1])
    requires '\n' !in title
    ensures TitleMatch("#\n" + title) == Some(title)
  {
    var s := "#\n" + title;
    assert s[0] == '#' && s[1] == '\n' && s[2] == title[0];
    assert SkipSpace(s, 1) == 2;
    assert forall k :: 2 <= k < |s| ==> s[k] == title[k - 2];
    assert FindFrom(s, '\n', 2) == |s|;
    assert s[2..|s|] == title;
    StripUnchanged(title);
    assert HeadingAt(s, 0) == Some(title);
  }

  // ---- the key paths: re.findall(r'`(/[^`]+)`', content) ----

  /** A group of the key-path pattern: a slash followed by at least one
      character, none of them a backtick. */
  predicate IsPathSpan(p: string) {
    |p| >= 2 && p[0] == '/' && '`' !in p
  }

  /** `re.findall` of the key-path pattern: a match starts at a backtick
      followed by a slash and ends at the next backtick, which must leave at
      least one character after the slash. Scanning goes on after a match, and
      one position further when there is none, so matches are found left to
      right and do not overlap. */
  function PathSpans(s: string): (spans: seq<string>)
    ensures 4 * |spans| <= |s|
    decreases |s|
  {
    if |s| < 2 then []
    else if s[0] == '`' && s[1] == '/' then
      var m := FindFrom(s, '`', 1);
      if 3 <= m < |s| then [s[1..m]] + PathSpans(s[m + 1..]) else PathSpans(s[1..])
    else PathSpans(s[1..])
  }

  /** Every match is a slash followed by text without backticks. */
  lemma {:induction false} PathSpansAreSpans(s: string)
    ensures forall k :: 0 <= k < |PathSpans(s)| ==> IsPathSpan(PathSpans(s)[k])
    decreases |s|
  {
    if |s| >= 2 {
      if s[0] == '`' && s[1] == '/' {
        var m := FindFrom(s, '`', 1);
        if 3 <= m < |s| {
          PathSpansAreSpans(s[m + 1..]);
          var p := s[1..m];
          assert forall k :: 0 <= k < |p| ==> p[k] == s[1 + k];
        } else {
          PathSpansAreSpans(s[1..]);
        }
      } else {
        PathSpansAreSpans(s[1..]);
      }
    }
  }

  /** A backtick span that begins with a slash is reported, and scanning goes on
      after its closing backtick. */
  lemma PathSpanFound(path: string, rest: string)
    requires IsPathSpan(path)
    ensures PathSpans("`" + path + "`" + rest) == [path] + PathSpans(rest)
  {
    var s := "`" + path + "`" + rest;
    var m := |path| + 1;
    assert forall k :: 1 <= k < m ==> s[k] == path[k - 1];
    assert s[m] == '`';
    assert FindFrom(s, '`', 1) == m;
    assert s[1..m] == path;
    assert s[m + 1..] == rest;
  }

  /** Text without a backtick holds no match, so the scan runs over it. */
  lemma {:induction false} PathSpansSkip(p: string, s: string)
    requires '`' !in p
    ensures PathSpans(p + s) == PathSpans(s)
    decreases |p|
  {
    if p != [] {
      PathSpansSkip(p[1..], s);
      assert p[0] in p;
      assert (p + s)[0] == p[0];
      assert (p + s)[1..] == p[1..] + s;
      assert PathSpans(p + s) == PathSpans(p[1..] + s);
    } else {
      assert p + s == s;
    }
  }

  /** A key path mentioned in prose is found. */
  lemma KeyPathInProse()
    ensures PathSpans("see `/etc`") == ["/etc"]
  {
    PathSpansSkip("see ", "`/etc`");
    PathSpanFound("/etc", "");
    assert "see " + "`/etc`" == "see `/etc`";
    assert "`" + "/etc" + "`" + "" == "`/etc`";
  }

  /** A lone slash between backticks is no match; the scan moves on by one
      character, so its closing backtick can open the next match. */
  lemma BareSlashSkipped(rest: string)
    ensures PathSpans("`/`" + rest) == PathSpans("/`" + rest)
  {
    var s := "`/`" + rest;
    assert s[0] == '`' && s[1] == '/' && s[2] == '`';
    assert FindFrom(s, '`', 1) == 2;
    assert s[1..] == "/`" + rest;
  }

  /** "`/`" holds no key path. */
  lemma BareSlashAlone()
    ensures PathSpans("`/`") == []
  {
    BareSlashSkipped("");
    var t := "/`";
    assert t[0] == '/' && t[1..] == "`";
  }

  /** After a lone slash span the next span is found: "`/`/etc`" holds "/etc". */
  lemma SpanAfterBareSlash()
    ensures PathSpans("`/`/etc`") == ["/etc"]
  {
    BareSlashSkipped("/etc`");
    var t := "/`/etc`";
    assert t[0] == '/';
    assert t[1..] == "`" + "/etc" + "`" + "";
    PathSpanFound("/etc", "");
  }

  // ---- extract_project_info ----

  /** The key paths come from a Python set: `order` lists its elements once each,
      in the order iteration yields them. */
  predicate Enumerates(order: seq<string>, xs: seq<string>) {
    && (forall i, j :: 0 <= i < j < |order| ==> order[i] != order[j])
    && (forall i :: 0 <= i < |order| ==> order[i] in xs)
    && (forall i :: 0 <= i < |xs| ==> xs[i] in order)
  }

  /** The purpose text, stripped and cut to its first 200 characters. */
  function Identity(purpose: string): (identity: string)
    ensures |identity| <= IdentityCap
    ensures identity <= Strip(purpose)
    ensures |identity| == Min(IdentityCap, |Strip(purpose)|)
  {
    var p := Strip(purpose);
    p[..Min(IdentityCap, |p|)]
  }

  /** The service table's rows with both cells stripped. */
  function StrippedRows(rows: seq<(string, string)>): (stripped: seq<(string, string)>)
    ensures |stripped| == |rows|
    ensures forall k :: 0 <= k < |rows| ==> stripped[k] == (Strip(rows[k].0), Strip(rows[k].1))
    decreases |rows|
  {
    if rows == [] then [] else [(Strip(rows[0].0), Strip(rows[0].1))] + StrippedRows(rows[1..])
  }

  /** The first ten key paths in set order: distinct spans of `content`, and
      all of them when there are fewer than ten. */
  function KeyPaths(order: seq<string>, content: string): (paths: seq<string>)
    requires Enumerates(order, PathSpans(content))
    ensures |paths| <= KeyPathsCap
    ensures forall i, j :: 0 <= i < j < |paths| ==> paths[i] != paths[j]
    ensures forall p :: p in paths ==> IsPathSpan(p) && p in PathSpans(content)
    ensures |paths| == KeyPathsCap || forall p :: p in PathSpans(content) ==> p in paths
    ensures paths <= order
  {
    var paths := order[..Min(KeyPathsCap, |order|)];
    PathSpansAreSpans(content);
    assert forall p :: p in paths ==> p in order;
    paths
  }

  /** `extract_project_info(CLAUDE.md)`; `content` is None when CLAUDE.md does not exist. */
  function ExtractProjectInfo(content: Option<string>, m: ClaudeMatches): (info: ProjectInfo)
    requires content.Some? ==> Enumerates(m.keyPathOrder, PathSpans(content.value))
    ensures content.None? ==> info == DefaultInfo
    ensures content.Some? ==>
      info.name == (match TitleMatch(content.value) case Some(t) => t case None => "Unknown Project")
    ensures |info.identity| <= IdentityCap
    ensures content.Some? && m.purpose.Some? ==>
      var p := Strip(m.purpose.value);
      info.identity == p[..Min(IdentityCap, |p|)]
    ensures (content.None? || m.purpose.None?) ==> info.identity == ""
    ensures |info.keyServices| <= ServicesCap
    ensures content.Some? ==> |info.keyServices| == Min(ServicesCap, |m.services|)
    ensures forall k :: 0 <= k < |info.keyServices| ==>
      info.keyServices[k] == (Strip(m.services[k].0), Strip(m.services[k].1))
    ensures |info.keyPaths| <= KeyPathsCap
    ensures forall i, j :: 0 <= i < j < |info.keyPaths| ==> info.keyPaths[i] != info.keyPaths[j]
    ensures forall p :: p in info.keyPaths ==> IsPathSpan(p)
    ensures content.Some? ==> forall p :: p in info.keyPaths ==> p in PathSpans(content.value)
    ensures content.Some? ==>
      |info.keyPaths| == KeyPathsCap || forall p :: p in PathSpans(content.value) ==> p in info.keyPaths
  {
    match content
    case None => DefaultInfo
    case Some(c) =>
      var name := match TitleMatch(c) case Some(t) => t case None => "Unknown Project";
      var identity := match m.purpose case Some(g) => Identity(g) case None => "";
      var services := StrippedRows(m.services[..Min(ServicesCap, |m.services|)]);
      ProjectInfo(name, identity, services, KeyPaths(m.keyPathOrder, c))
  }

  /** What `extract_project_info(project / "CLAUDE.md")` returns or raises:
      the defaults when the file is absent, `read_text`'s exception when it
      cannot be read. */
  function ProjectInfoOf(st: FsState, m: ClaudeMatches): Result<ProjectInfo>
    requires ClaudeMd in st.files ==> Enumerates(m.keyPathOrder, PathSpans(st.files[ClaudeMd]))
  {
    if !st.Exists(ClaudeMd) then Ok(ExtractProjectInfo(None, m))
    else match st.Read(ClaudeMd)
      case Ok(content) => Ok(ExtractProjectInfo(Some(content), m))
      case Err(e) => Err(e)
  }

  /** `extract_project_info`, filling the dict field by field. */
  method ReadProjectInfo(fs: FileSystem, m: ClaudeMatches) returns (r: Result<ProjectInfo>)
    requires ClaudeMd in fs.files ==> Enumerates(m.keyPathOrder, PathSpans(fs.files[ClaudeMd]))
    ensures r == ProjectInfoOf(fs.State(), m)
    ensures r.Err? <==> ClaudeMd in fs.dirs && ClaudeMd !in fs.files
    ensures r.Err? ==> r.error == IsADirectory(ClaudeMd)
    ensures !(ClaudeMd in fs.files || ClaudeMd in fs.dirs) ==> r == Ok(DefaultInfo)
  {
    var info := DefaultInfo;
    if !(ClaudeMd in fs.files || ClaudeMd in fs.dirs) {
      return Ok(info);
    }
    if ClaudeMd !in fs.files {
      return Err(IsADirectory(ClaudeMd));
    }
    var content := fs.files[ClaudeMd];
    var title := TitleMatch(content);
    if title.Some? {
      info := info.(name := title.value);
    }
    if m.purpose.Some? {
      info := info.(identity := Identity(m.purpose.value));
    }
    info := info.(keyServices := StrippedRows(m.services[..Min(ServicesCap, |m.services|)]));
    info := info.(keyPaths := KeyPaths(m.keyPathOrder, content));
    r := Ok(info);
  }

  // ---- detect_docs_structure ----

  /** One entry of the extractions list. */
  datatype Extraction = Extraction(name: string, source: string, summary: string)

  /** `PurePath(fileName).stem`: the name without its last suffix; a leading dot
      or a trailing dot does not start a suffix. */
  function Stem(fileName: string): (stem: string)
    ensures stem <= fileName
    ensures stem == fileName || (stem != "" && fileName[|stem|] == '.' && '.' !in fileName[|stem| + 1..])
  {
    var i := RFind(fileName, '.');
    if 0 < i < |fileName| - 1 then fileName[..i] else fileName
  }

  /** The stem of `x.md` is `x`. */
  lemma StemOfMarkdown(fileName: string)
    requires MatchesMd(fileName) && |fileName| > 3
    ensures Stem(fileName) == fileName[..|fileName| - 3]
    ensures fileName == Stem(fileName) + ".md"
  {
    var n := |fileName|;
    assert fileName[n - 3..] == ".md";
    assert fileName[n - 3] == '.' && fileName[n - 2] == 'm' && fileName[n - 1] == 'd';
    assert RFind(fileName, '.') == n - 3;
  }

  /** The record for one file of `docs/`. */
  function DocRecord(fileName: string): Extraction {
    Extraction(Lower(Stem(fileName)), "docs/" + fileName, Stem(fileName) + " documentation")
  }

  /** The list `detect_docs_structure` returns: a record per listed file,
      truncated to the first 20; nothing when `docs/` does not exist. */
  function DocsStructure(docsExists: bool, listing: seq<string>): seq<Extraction> {
    if !docsExists then []
    else
      var n := Min(ExtractionsCap, |listing|);
      seq(n, k requires 0 <= k < n => DocRecord(listing[k]))
  }

  /** `detect_docs_structure`: `listing` is what `docs_dir.glob("*.md")` yields,
      in its order. */
  method DetectDocsStructure(docsExists: bool, listing: seq<string>) returns (extractions: seq<Extraction>)
    ensures extractions == DocsStructure(docsExists, listing)
    ensures !docsExists ==> extractions == []
    ensures docsExists ==> |extractions| == Min(ExtractionsCap, |listing|)
    ensures forall k :: 0 <= k < |extractions| ==>
      && extractions[k].name == Lower(Stem(listing[k]))
      && extractions[k].source == "docs/" + listing[k]
      && extractions[k].summary == Stem(listing[k]) + " documentation"
  {
    var all: seq<Extraction> := [];
    if docsExists {
      var i := 0;
      while i < |listing|
        invariant 0 <= i <= |listing|
        invariant |all| == i
        invariant forall k :: 0 <= k < i ==> all[k] == DocRecord(listing[k])
      {
        var docFile := listing[i];
        var name := Lower(Stem(docFile));
        all := all + [Extraction(name, "docs/" + docFile, Stem(docFile) + " documentation")];
        i := i + 1;
      }
    }
    extractions := all[..Min(ExtractionsCap, |all|)];
  }
}
