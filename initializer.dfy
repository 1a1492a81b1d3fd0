/** `init_protext`: three guards, then a tier-dependent sequence of writes
    and directory creations over the project directory. */
module Initializer {
  import opened Options
  import opened Text
  import opened Fs
  import opened Layout
  import opened Extractor
  import opened Templates

  /** What `init_protext` returns, or the exception that escapes it. */
  datatype InitResult = Returned(success: bool) | Raised(error: FsError)

  /** Everything `init_protext` takes from outside the filesystem: the line
      typed at the overwrite prompt, the directory's own name, the two clock
      stamps, the order in which `glob` lists the `*.md` entries of `docs`, and what the opaque
      regular expressions find in CLAUDE.md. */
  datatype Environment = Environment(
    response: string,
    dirName: string,
    today: string,
    now: string,
    docsListing: seq<string>,
    claude: ClaudeMatches)

  /** The filesystem after a call, and what the call returned. */
  datatype InitRun = InitRun(state: FsState, result: InitResult)

  /** What the pattern `*.md` selects in `docs`. */
  function DocsMarkdown(st: FsState): set<string> {
    MarkdownIn(st, DocsDir)
  }

  /** The environment describes this filesystem: the docs listing holds each
      selected name once, and the key-path order enumerates CLAUDE.md's spans. */
  predicate EnvFits(st: FsState, env: Environment) {
    && (forall i, j :: 0 <= i < j < |env.docsListing| ==> env.docsListing[i] != env.docsListing[j])
    && (forall i :: 0 <= i < |env.docsListing| ==> env.docsListing[i] in DocsMarkdown(st))
    && (forall n :: n in DocsMarkdown(st) ==> n in env.docsListing)
    && (ClaudeMd in st.files ==> Enumerates(env.claude.keyPathOrder, PathSpans(st.files[ClaudeMd])))
  }

  /** An earlier initialization left PROTEXT.md or `.protext`. */
  predicate HasPrior(st: FsState) {
    st.Exists(ProtextMd) || st.Exists(ProtextDir)
  }

  /** The answer to "Overwrite? [y/N]" is yes. */
  predicate Confirmed(response: string) {
    Lower(Strip(response)) == "y"
  }

  predicate WritesHandoff(tier: string) {
    tier == "intermediate" || tier == "advanced"
  }

  /** The texts `init_protext` writes: PROTEXT.md, the handoff, the
      configuration, the index, and each scope file after its scope's name. */
  datatype Texts = Texts(
    protext: string,
    handoff: string,
    config: string,
    index: string,
    scopeFiles: seq<(string, string)>)

  /** `(name, create_scope_file(name, focus))` for each `(name, focus)`, in order. */
  function ScopeFiles(scopes: seq<(string, string)>): seq<(string, string)> {
    seq(|scopes|, k requires 0 <= k < |scopes| => (scopes[k].0, ScopeFile(scopes[k].0, scopes[k].1)))
  }

  /** The texts for a project whose CLAUDE.md gave `info`. */
  function TextsFor(st: FsState, env: Environment, info: ProjectInfo): Texts {
    var exts := DocsStructure(st.Exists(DocsDir), env.docsListing);
    Texts(ProtextMdText(env.dirName, info, env.today), HandoffMd(env.now), ConfigYaml,
      IndexYaml(exts), ScopeFiles(ScopeDefaults))
  }

  /** The directory `.protext` and the handoff, which the two upper tiers write. */
  function HandoffSteps(handoff: string): seq<Step> {
    [MakeDir(ProtextDir), WriteFile(HandoffPath, handoff)]
  }

  /** The scope files, in order. */
  function ScopeSteps(scopeFiles: seq<(string, string)>): seq<Step> {
    seq(|scopeFiles|, k requires 0 <= k < |scopeFiles| => WriteFile(ScopePath(scopeFiles[k].0), scopeFiles[k].1))
  }

  /** The configuration, the index, the scopes directory and the scope files,
      which only the advanced tier writes. */
  function AdvancedSteps(config: string, index: string, scopeFiles: seq<(string, string)>): seq<Step> {
    [WriteFile(ConfigPath, config), WriteFile(IndexPath, index), MakeDir(ScopesDir)]
    + ScopeSteps(scopeFiles)
  }

  /** The mutations of `init_protext` for `tier`, in the order it performs them. */
  function WritePlan(tier: string, t: Texts): seq<Step> {
    [WriteFile(ProtextMd, t.protext)]
    + (if WritesHandoff(tier) then HandoffSteps(t.handoff) else [])
    + (if tier == "advanced" then AdvancedSteps(t.config, t.index, t.scopeFiles) else [])
  }

  /** The paths of the scope files. */
  function ScopePathsOf(scopeFiles: seq<(string, string)>): set<Path> {
    set k | 0 <= k < |scopeFiles| :: ScopePath(scopeFiles[k].0)
  }

  /** The scope files `init_protext` writes. */
  const ScopePaths: set<Path> := {ScopePath("ops"), ScopePath("dev"), ScopePath("security")}

  /** The paths the plan for `tier` touches, given its scope files' paths. */
  function TierPaths(tier: string, scopes: set<Path>): set<Path> {
    {ProtextMd}
    + (if WritesHandoff(tier) then {ProtextDir, HandoffPath} else {})
    + (if tier == "advanced" then {ConfigPath, IndexPath, ScopesDir} + scopes else {})
  }

  lemma ScopeStepsPaths(scopeFiles: seq<(string, string)>)
    ensures Paths(ScopeSteps(scopeFiles)) == ScopePathsOf(scopeFiles)
  {
    var e := ScopeSteps(scopeFiles);
    forall q | q in ScopePathsOf(scopeFiles) ensures q in Paths(e) {
      var k :| 0 <= k < |scopeFiles| && ScopePath(scopeFiles[k].0) == q;
      assert e[k].path == q;
    }
  }

  /** The plan for `tier` touches exactly that tier's paths. */
  lemma PlanPaths(tier: string, t: Texts)
    ensures Paths(WritePlan(tier, t)) == TierPaths(tier, ScopePathsOf(t.scopeFiles))
  {
    var a := [WriteFile(ProtextMd, t.protext)];
    var b: seq<Step> := if WritesHandoff(tier) then HandoffSteps(t.handoff) else [];
    var c: seq<Step> := if tier == "advanced" then AdvancedSteps(t.config, t.index, t.scopeFiles) else [];
    PathsAppend(a + b, c);
    PathsAppend(a, b);
    assert Paths(a) == {ProtextMd} by {
      assert a[0].path == ProtextMd;
    }
    if WritesHandoff(tier) {
      PathsOfPair(MakeDir(ProtextDir), WriteFile(HandoffPath, t.handoff));
    }
    if tier == "advanced" {
      var d := [WriteFile(ConfigPath, t.config), WriteFile(IndexPath, t.index), MakeDir(ScopesDir)];
      PathsAppend(d, ScopeSteps(t.scopeFiles));
      assert Paths(d) == {ConfigPath, IndexPath, ScopesDir} by {
        assert d[0].path == ConfigPath && d[1].path == IndexPath && d[2].path == ScopesDir;
      }
      ScopeStepsPaths(t.scopeFiles);
    }
  }

  /** Scope files lie two levels below the project directory. */
  lemma ScopePathsDeep(scopeFiles: seq<(string, string)>)
    ensures forall q :: q in ScopePathsOf(scopeFiles) ==> |q| == 3
  {
  }

  /** The three entries of `SCOPE_DEFAULTS` give `ops.md`, `dev.md` and `security.md`. */
  lemma DefaultScopePaths()
    ensures ScopePathsOf(ScopeFiles(ScopeDefaults)) == ScopePaths
  {
    var e := ScopeFiles(ScopeDefaults);
    assert e[0].0 == "ops" && e[1].0 == "dev" && e[2].0 == "security";
  }

  /** The files after writing each scope file over `files`, later ones winning. */
  function WithScopeFiles(files: map<Path, string>, scopeFiles: seq<(string, string)>): map<Path, string>
    decreases |scopeFiles|
  {
    if scopeFiles == [] then files
    else WithScopeFiles(files[ScopePath(scopeFiles[0].0) := scopeFiles[0].1], scopeFiles[1..])
  }

  /** The project once every mutation of the plan for `tier` has succeeded:
      each text at its path, and `.protext` and `scopes` directories. */
  function Scaffolded(st: FsState, tier: string, t: Texts): FsState {
    var top := st.files[ProtextMd := t.protext];
    if !WritesHandoff(tier) then FsState(top, st.dirs)
    else if tier != "advanced" then FsState(top[HandoffPath := t.handoff], st.dirs + {ProtextDir})
    else FsState(
      WithScopeFiles(top[HandoffPath := t.handoff][ConfigPath := t.config][IndexPath := t.index], t.scopeFiles),
      st.dirs + {ProtextDir, ScopesDir})
  }

  /** No mutation of the plan for `tier` can raise: no file it writes is a
      directory, and `.protext` and `scopes` are directories or absent. */
  predicate Writable(st: FsState, tier: string, scopes: set<Path>) {
    && ProtextMd !in st.dirs
    && (WritesHandoff(tier) ==>
      (ProtextDir in st.dirs || ProtextDir !in st.files) && HandoffPath !in st.dirs)
    && (tier == "advanced" ==>
      && ConfigPath !in st.dirs && IndexPath !in st.dirs
      && (ScopesDir in st.dirs || ScopesDir !in st.files)
      && scopes !! st.dirs)
  }

  /** Inside an existing `scopes` directory the scope files are all written
      exactly when none of them is a directory. */
  lemma {:induction false} ScopeRun(s: FsState, scopeFiles: seq<(string, string)>)
    requires ScopesDir in s.dirs
    ensures s.Run(ScopeSteps(scopeFiles)).error.None? <==> ScopePathsOf(scopeFiles) !! s.dirs
    ensures s.Run(ScopeSteps(scopeFiles)).error.None? ==>
      s.Run(ScopeSteps(scopeFiles)).state == FsState(WithScopeFiles(s.files, scopeFiles), s.dirs)
    decreases |scopeFiles|
  {
    if scopeFiles != [] {
      var steps := ScopeSteps(scopeFiles);
      var p := ScopePath(scopeFiles[0].0);
      assert steps == [WriteFile(p, scopeFiles[0].1)] + ScopeSteps(scopeFiles[1..]);
      s.RunCons(steps[0], ScopeSteps(scopeFiles[1..]));
      assert Parent(p) == ScopesDir;
      assert ScopePathsOf(scopeFiles) == {p} + ScopePathsOf(scopeFiles[1..]) by {
        forall q | q in ScopePathsOf(scopeFiles) ensures q in {p} + ScopePathsOf(scopeFiles[1..]) {
          var k :| 0 <= k < |scopeFiles| && ScopePath(scopeFiles[k].0) == q;
          if k > 0 {
            assert ScopePath(scopeFiles[1..][k - 1].0) == q;
          }
        }
        forall q | q in ScopePathsOf(scopeFiles[1..]) ensures q in ScopePathsOf(scopeFiles) {
          var k :| 0 <= k < |scopeFiles[1..]| && ScopePath(scopeFiles[1..][k].0) == q;
          assert ScopePath(scopeFiles[k + 1].0) == q;
        }
      }
      var first := s.Apply(steps[0]);
      if first.error.None? {
        ScopeRun(first.state, scopeFiles[1..]);
      }
    }
  }

  /** The plan for `tier` runs to the end exactly when the project is
      `Writable`, and then leaves it `Scaffolded`. */
  lemma PlanOutcome(st: FsState, tier: string, t: Texts)
    requires Root in st.dirs
    ensures st.Run(WritePlan(tier, t)).error.None? <==> Writable(st, tier, ScopePathsOf(t.scopeFiles))
    ensures st.Run(WritePlan(tier, t)).error.None? ==> st.Run(WritePlan(tier, t)).state == Scaffolded(st, tier, t)
  {
    var a := [WriteFile(ProtextMd, t.protext)];
    assert Parent(ProtextMd) == Root;
    st.RunCons(a[0], []);
    var s1 := st.Apply(a[0]).state;
    if tier == "advanced" {
      AdvancedPlanOutcome(st, t);
    } else if WritesHandoff(tier) {
      var b := HandoffSteps(t.handoff);
      assert WritePlan(tier, t) == a + b;
      st.RunAppend(a, b);
      if st.Apply(a[0]).error.None? {
        HandoffOutcome(s1, t.handoff);
      }
    } else {
      assert WritePlan(tier, t) == a;
    }
  }

  /** The advanced tier's plan: the top file, the handoff, then the rest. */
  lemma AdvancedPlanOutcome(st: FsState, t: Texts)
    requires Root in st.dirs
    ensures st.Run(WritePlan("advanced", t)).error.None? <==> Writable(st, "advanced", ScopePathsOf(t.scopeFiles))
    ensures st.Run(WritePlan("advanced", t)).error.None? ==>
      st.Run(WritePlan("advanced", t)).state == Scaffolded(st, "advanced", t)
  {
    var a := [WriteFile(ProtextMd, t.protext)];
    var b := HandoffSteps(t.handoff);
    var c := AdvancedSteps(t.config, t.index, t.scopeFiles);
    assert WritePlan("advanced", t) == a + b + c;
    st.RunAppend(a + b, c);
    st.RunAppend(a, b);
    st.RunCons(a[0], []);
    assert Parent(ProtextMd) == Root;
    ScopePathsDeep(t.scopeFiles);
    var s1 := st.Apply(a[0]).state;
    if st.Apply(a[0]).error.None? {
      HandoffOutcome(s1, t.handoff);
      var s2 := s1.Run(b).state;
      if s1.Run(b).error.None? {
        AdvancedOutcome(s2, t);
        assert st.Run(a + b) == s1.Run(b);
        assert st.Run(WritePlan("advanced", t)) == s2.Run(c);
        AdvancedConditionsAfterHandoff(st, s2, t.protext, t.handoff, ScopePathsOf(t.scopeFiles));
      }
    }
  }

  /** Writing `PROTEXT.md` and the handoff changes none of the advanced tier's
      conditions on the paths below `.protext`. */
  lemma AdvancedConditionsAfterHandoff(st: FsState, s2: FsState, protext: string, handoff: string, scopes: set<Path>)
    requires s2.files == st.files[ProtextMd := protext][HandoffPath := handoff]
    requires s2.dirs == st.dirs + {ProtextDir}
    requires forall q :: q in scopes ==> |q| == 3
    ensures
      (&& ConfigPath !in s2.dirs && IndexPath !in s2.dirs
       && (ScopesDir in s2.dirs || ScopesDir !in s2.files)
       && scopes !! s2.dirs)
      <==>
      (&& ConfigPath !in st.dirs && IndexPath !in st.dirs
       && (ScopesDir in st.dirs || ScopesDir !in st.files)
       && scopes !! st.dirs)
    ensures s2.dirs + {ScopesDir} == st.dirs + {ProtextDir, ScopesDir}
  {
    assert ProtextDir !in scopes;
  }

  /** The upper tiers' `.protext` directory and handoff. */
  lemma HandoffOutcome(s: FsState, handoff: string)
    requires Root in s.dirs
    ensures s.Run(HandoffSteps(handoff)).error.None? <==>
      (ProtextDir in s.dirs || ProtextDir !in s.files) && HandoffPath !in s.dirs
    ensures s.Run(HandoffSteps(handoff)).error.None? ==>
      s.Run(HandoffSteps(handoff)).state == FsState(s.files[HandoffPath := handoff], s.dirs + {ProtextDir})
  {
    var b := HandoffSteps(handoff);
    assert Parent(ProtextDir) == Root && Parent(HandoffPath) == ProtextDir;
    s.RunCons(b[0], [b[1]]);
    s.Apply(b[0]).state.RunCons(b[1], []);
  }

  /** The advanced tier's part of the plan, once `.protext` is a directory. */
  lemma AdvancedOutcome(s: FsState, t: Texts)
    requires ProtextDir in s.dirs
    ensures s.Run(AdvancedSteps(t.config, t.index, t.scopeFiles)).error.None? <==>
      && ConfigPath !in s.dirs && IndexPath !in s.dirs
      && (ScopesDir in s.dirs || ScopesDir !in s.files)
      && ScopePathsOf(t.scopeFiles) !! s.dirs
    ensures s.Run(AdvancedSteps(t.config, t.index, t.scopeFiles)).error.None? ==>
      s.Run(AdvancedSteps(t.config, t.index, t.scopeFiles)).state
        == FsState(WithScopeFiles(s.files[ConfigPath := t.config][IndexPath := t.index], t.scopeFiles),
          s.dirs + {ScopesDir})
  {
    var rest := ScopeSteps(t.scopeFiles);
    var steps := AdvancedSteps(t.config, t.index, t.scopeFiles);
    assert Parent(ConfigPath) == Parent(IndexPath) == Parent(ScopesDir) == ProtextDir;
    ScopePathsDeep(t.scopeFiles);
    assert steps == [steps[0]] + ([steps[1]] + ([steps[2]] + rest));
    s.RunCons(steps[0], [steps[1]] + ([steps[2]] + rest));
    var s1 := s.Apply(steps[0]).state;
    s1.RunCons(steps[1], [steps[2]] + rest);
    var s2 := s1.Apply(steps[1]).state;
    s2.RunCons(steps[2], rest);
    var s3 := s2.Apply(steps[2]).state;
    if s.Apply(steps[0]).error.None? && s1.Apply(steps[1]).error.None? && s2.Apply(steps[2]).error.None? {
      ScopeRun(s3, t.scopeFiles);
    }
  }

  /** Performs a plan: `init_protext` returns True once every step is done,
      and an exception of a step escapes it. */
  function Perform(st: FsState, plan: seq<Step>): (run: InitRun)
    ensures run.result != Returned(false)
    ensures run.result.Raised? <==> st.Run(plan).error.Some?
    ensures run.result.Raised? ==> run.result.error == st.Run(plan).error.value
    ensures run.state == st.Run(plan).state
  {
    var o := st.Run(plan);
    InitRun(o.state, if o.error.Some? then Raised(o.error.value) else Returned(true))
  }

  /** `init_protext` declines: the project path is missing or not a directory,
      or an earlier initialization exists and the answer is not yes. */
  predicate Declines(st: FsState, response: string) {
    !st.Exists(Root) || Root !in st.dirs || (HasPrior(st) && !Confirmed(response))
  }

  /** What `init_protext` does once its guards have passed: read CLAUDE.md,
      then perform the plan for `tier`. */
  function Initialize(st: FsState, tier: string, env: Environment): (run: InitRun)
    requires EnvFits(st, env)
    ensures run.result != Returned(false)
    ensures ClaudeMd in st.dirs && ClaudeMd !in st.files ==>
      run == InitRun(st, Raised(IsADirectory(ClaudeMd)))
  {
    match ProjectInfoOf(st, env.claude)
    case Err(e) => InitRun(st, Raised(e))
    case Ok(info) => Perform(st, WritePlan(tier, TextsFor(st, env, info)))
  }

  /** `init_protext(project, tier)` on the filesystem `st`. */
  function InitSpec(st: FsState, tier: string, env: Environment): (run: InitRun)
    requires EnvFits(st, env)
    ensures run.result == Returned(false) <==> Declines(st, env.response)
    ensures run.result == Returned(false) ==> run.state == st
  {
    if Declines(st, env.response) then InitRun(st, Returned(false)) else Initialize(st, tier, env)
  }

  /** Past the guards and the read of CLAUDE.md, `init_protext` performs the
      plan of its tier. */
  lemma InitPerformsPlan(st: FsState, tier: string, env: Environment)
    requires EnvFits(st, env) && !Declines(st, env.response) && ProjectInfoOf(st, env.claude).Ok?
    ensures InitSpec(st, tier, env)
      == Perform(st, WritePlan(tier, TextsFor(st, env, ProjectInfoOf(st, env.claude).value)))
  {
  }

  /** The plan for `tier` changes nothing but that tier's paths and, when it
      runs to the end, leaves every one of them in place. */
  lemma PlanFrame(st: FsState, tier: string, t: Texts)
    ensures forall q :: q !in TierPaths(tier, ScopePathsOf(t.scopeFiles)) ==>
      st.Run(WritePlan(tier, t)).state.SameAt(st, q)
    ensures st.Run(WritePlan(tier, t)).error.None? ==>
      forall q :: q in TierPaths(tier, ScopePathsOf(t.scopeFiles)) ==> st.Run(WritePlan(tier, t)).state.Exists(q)
  {
    st.RunFrame(WritePlan(tier, t));
    PlanPaths(tier, t);
  }

  /** `init_protext` changes nothing at a path outside its tier's, whatever it returns. */
  lemma InitTouchesOnlyTierPaths(st: FsState, tier: string, env: Environment, q: Path)
    requires EnvFits(st, env) && q !in TierPaths(tier, ScopePaths)
    ensures InitSpec(st, tier, env).state.SameAt(st, q)
  {
    if !Declines(st, env.response) && ProjectInfoOf(st, env.claude).Ok? {
      InitPerformsPlan(st, tier, env);
      PlanFrame(st, tier, TextsFor(st, env, ProjectInfoOf(st, env.claude).value));
      DefaultScopePaths();
    }
  }

  /** When `init_protext` returns True, each path of its tier is in place. */
  lemma InitCreatesTierPaths(st: FsState, tier: string, env: Environment, q: Path)
    requires EnvFits(st, env) && q in TierPaths(tier, ScopePaths)
    ensures InitSpec(st, tier, env).result == Returned(true) ==> InitSpec(st, tier, env).state.Exists(q)
  {
    if !Declines(st, env.response) && ProjectInfoOf(st, env.claude).Ok? {
      InitPerformsPlan(st, tier, env);
      PlanFrame(st, tier, TextsFor(st, env, ProjectInfoOf(st, env.claude).value));
      DefaultScopePaths();
    }
  }

  /** Past its guards, with CLAUDE.md readable, `init_protext` returns True
      exactly when the project is `Writable` for `tier`, and the project then
      holds the tier's texts; otherwise a step's exception escapes. Existing
      `.protext` and `scopes` directories are no obstacle. */
  lemma InitOutcome(st: FsState, tier: string, env: Environment)
    requires EnvFits(st, env) && !Declines(st, env.response) && ProjectInfoOf(st, env.claude).Ok?
    ensures InitSpec(st, tier, env).result == Returned(true) <==> Writable(st, tier, ScopePaths)
    ensures InitSpec(st, tier, env).result.Raised? <==> !Writable(st, tier, ScopePaths)
    ensures InitSpec(st, tier, env).result == Returned(true) ==>
      InitSpec(st, tier, env).state == Scaffolded(st, tier, TextsFor(st, env, ProjectInfoOf(st, env.claude).value))
  {
    InitPerformsPlan(st, tier, env);
    var t := TextsFor(st, env, ProjectInfoOf(st, env.claude).value);
    PlanOutcome(st, tier, t);
    DefaultScopePaths();
  }

  /** The `.protext` directory and the handoff. */
  method WriteHandoffFiles(fs: FileSystem, handoff: string) returns (err: Option<FsError>)
    modifies fs
    ensures Outcome(fs.State(), err) == old(fs.State()).Run(HandoffSteps(handoff))
  {
    ghost var rest := HandoffSteps(handoff);
    ghost var goal := fs.State().Run(rest);
    err := fs.Mkdir(ProtextDir);
    if err.Some? {
      return;
    }
    rest := rest[1..];
    assert goal == fs.State().Run(rest);
    err := fs.WriteText(HandoffPath, handoff);
    if err.Some? {
      return;
    }
    rest := rest[1..];
    assert goal == fs.State().Run(rest);
    assert rest == [];
  }

  /** One scope file for each entry of `scopes`, in order. */
  method WriteScopeFiles(fs: FileSystem, scopes: seq<(string, string)>) returns (err: Option<FsError>)
    modifies fs
    ensures Outcome(fs.State(), err) == old(fs.State()).Run(ScopeSteps(ScopeFiles(scopes)))
  {
    ghost var rest := ScopeSteps(ScopeFiles(scopes));
    ghost var goal := fs.State().Run(rest);
    err := None;
    var i := 0;
    while i < |scopes|
      invariant 0 <= i <= |scopes|
      invariant rest == ScopeSteps(ScopeFiles(scopes))[i..]
      invariant goal == fs.State().Run(rest)
      invariant err.None?
    {
      var scopeName := scopes[i].0;
      var focus := scopes[i].1;
      assert rest[0] == WriteFile(ScopePath(scopeName), ScopeFile(scopeName, focus));
      err := fs.WriteText(ScopePath(scopeName), ScopeFile(scopeName, focus));
      if err.Some? {
        return;
      }
      rest := rest[1..];
      i := i + 1;
    }
    assert rest == [];
  }

  /** The configuration, the index, the scopes directory and the scope files. */
  method WriteAdvancedFiles(fs: FileSystem, extractions: seq<Extraction>) returns (err: Option<FsError>)
    modifies fs
    ensures Outcome(fs.State(), err) == old(fs.State()).Run(AdvancedSteps(ConfigYaml, IndexYaml(extractions), ScopeFiles(ScopeDefaults)))
  {
    ghost var rest := AdvancedSteps(ConfigYaml, IndexYaml(extractions), ScopeFiles(ScopeDefaults));
    ghost var goal := fs.State().Run(rest);
    err := fs.WriteText(ConfigPath, ConfigYaml);
    if err.Some? {
      return;
    }
    rest := rest[1..];
    assert goal == fs.State().Run(rest);
    var indexContent := CreateIndexYaml(extractions);
    err := fs.WriteText(IndexPath, indexContent);
    if err.Some? {
      return;
    }
    rest := rest[1..];
    assert goal == fs.State().Run(rest);
    err := fs.Mkdir(ScopesDir);
    if err.Some? {
      return;
    }
    rest := rest[1..];
    assert goal == fs.State().Run(rest);
    assert rest == ScopeSteps(ScopeFiles(ScopeDefaults));
    err := WriteScopeFiles(fs, ScopeDefaults);
  }

  /** The writes and directory creations of `init_protext` for `tier`, once the
      guards have passed; `err` is the exception that stops them, if any. */
  method Scaffold(fs: FileSystem, tier: string, protext: string, now: string, extractions: seq<Extraction>)
    returns (err: Option<FsError>)
    modifies fs
    ensures Outcome(fs.State(), err)
      == old(fs.State()).Run(WritePlan(tier, Texts(protext, HandoffMd(now), ConfigYaml, IndexYaml(extractions), ScopeFiles(ScopeDefaults))))
  {
    ghost var st0 := fs.State();
    ghost var first := [WriteFile(ProtextMd, protext)];
    ghost var middle: seq<Step> := if WritesHandoff(tier) then HandoffSteps(HandoffMd(now)) else [];
    ghost var last: seq<Step> := if tier == "advanced" then AdvancedSteps(ConfigYaml, IndexYaml(extractions), ScopeFiles(ScopeDefaults)) else [];
    st0.RunAppend(first + middle, last);
    st0.RunAppend(first, middle);

    err := fs.WriteText(ProtextMd, protext);
    assert Outcome(fs.State(), err) == st0.Run(first);
    if err.Some? {
      return;
    }
    ghost var st1 := fs.State();
    if tier == "intermediate" || tier == "advanced" {
      err := WriteHandoffFiles(fs, HandoffMd(now));
      if err.Some? {
        return;
      }
    }
    assert Outcome(fs.State(), err) == st0.Run(first + middle);
    if tier == "advanced" {
      err := WriteAdvancedFiles(fs, extractions);
    }
  }

  /** The part of `init_protext` after its guards. */
  method InitializeProject(fs: FileSystem, tier: string, env: Environment) returns (result: InitResult)
    requires EnvFits(fs.State(), env)
    modifies fs
    ensures InitRun(fs.State(), result) == Initialize(old(fs.State()), tier, env)
  {
    var read := ReadProjectInfo(fs, env.claude);
    if read.Err? {
      return Raised(read.error);
    }
    var info := read.value;
    var extractions := DetectDocsStructure(DocsDir in fs.files || DocsDir in fs.dirs, env.docsListing);
    var protextContent := ProtextMdText(env.dirName, info, env.today);
    var err := Scaffold(fs, tier, protextContent, env.now, extractions);
    result := if err.Some? then Raised(err.value) else Returned(true);
  }

  /** `init_protext`, performing the writes on `fs` one after the other. */
  method InitProtext(fs: FileSystem, tier: string, env: Environment) returns (result: InitResult)
    requires EnvFits(fs.State(), env)
    modifies fs
    ensures InitRun(fs.State(), result) == InitSpec(old(fs.State()), tier, env)
  {
    if !(Root in fs.files || Root in fs.dirs) {
      return Returned(false);
    }
    if Root !in fs.dirs {
      return Returned(false);
    }
    if HasPrior(fs.State()) {
      var answer := Lower(Strip(env.response));
      if answer != "y" {
        return Returned(false);
      }
    }
    result := InitializeProject(fs, tier, env);
  }
}
