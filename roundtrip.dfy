/** What `protext_status` reads back from a project that `init_protext` has
    just scaffolded. */
module RoundTrip {
  import opened Options
  import opened Text
  import opened Fs
  import opened Layout
  import opened Extractor
  import opened Templates
  import opened Initializer
  import opened Status

  /** A project with neither PROTEXT.md nor `.protext` holds nothing below
      `.protext` either. */
  lemma FreshHasNothingBelow(st: FsState, q: Path)
    requires st.Valid() && !HasPrior(st)
    requires |q| >= 2 && q[0] == ProtextDir[0]
    ensures !st.Exists(q)
  {
    var d := Parent(q);
    if |q| == 2 {
      assert d == [q[0]] == ProtextDir;
    } else {
      FreshHasNothingBelow(st, d);
    }
  }

  /** A fresh project is `Writable` for every tier. */
  lemma FreshIsWritable(st: FsState, tier: string, scopes: set<Path>)
    requires st.Valid() && !HasPrior(st)
    requires forall q :: q in scopes ==> |q| == 3 && q[0] == ProtextDir[0]
    ensures Writable(st, tier, scopes)
  {
    FreshHasNothingBelow(st, HandoffPath);
    FreshHasNothingBelow(st, ConfigPath);
    FreshHasNothingBelow(st, IndexPath);
    FreshHasNothingBelow(st, ScopesDir);
    forall q | q in scopes ensures q !in st.dirs {
      FreshHasNothingBelow(st, q);
    }
  }

  /** Scaffolding a fresh project for a tier leaves files that
      `detect_tier` reports as that tier; any other name writes the
      beginner files. */
  lemma ScaffoldedTier(st: FsState, tier: string, t: Texts)
    requires st.Valid() && !HasPrior(st)
    ensures DetectTier(Scaffolded(st, tier, t)) == (if WritesHandoff(tier) then tier else "beginner")
  {
    FreshHasNothingBelow(st, IndexPath);
    if tier == "advanced" {
      ScaffoldedFiles(st, t);
      assert IndexPath in Scaffolded(st, tier, t).files;
    }
  }

  /** Writing the scope files adds exactly their paths to the files. */
  lemma {:induction false} WithScopeFilesKeys(files: map<Path, string>, scopeFiles: seq<(string, string)>)
    ensures WithScopeFiles(files, scopeFiles).Keys == files.Keys + ScopePathsOf(scopeFiles)
    decreases |scopeFiles|
  {
    if scopeFiles != [] {
      var rest := scopeFiles[1..];
      WithScopeFilesKeys(files[ScopePath(scopeFiles[0].0) := scopeFiles[0].1], rest);
      forall q | q in ScopePathsOf(rest) ensures q in ScopePathsOf(scopeFiles) {
        var k :| 0 <= k < |rest| && q == ScopePath(rest[k].0);
        assert rest[k] == scopeFiles[k + 1];
      }
      forall q | q in ScopePathsOf(scopeFiles) && q != ScopePath(scopeFiles[0].0)
        ensures q in ScopePathsOf(rest)
      {
        var k :| 0 <= k < |scopeFiles| && q == ScopePath(scopeFiles[k].0);
        assert k > 0;
        assert scopeFiles[k] == rest[k - 1];
      }
      assert ScopePath(scopeFiles[0].0) in ScopePathsOf(scopeFiles);
    }
  }

  /** Writing the scope files leaves what lies outside `scopes` alone. */
  lemma {:induction false} WithScopeFilesKeepsOthers(files: map<Path, string>, scopeFiles: seq<(string, string)>, p: Path)
    requires p in files && |p| != 3
    ensures p in WithScopeFiles(files, scopeFiles) && WithScopeFiles(files, scopeFiles)[p] == files[p]
    decreases |scopeFiles|
  {
    if scopeFiles != [] {
      WithScopeFilesKeepsOthers(files[ScopePath(scopeFiles[0].0) := scopeFiles[0].1], scopeFiles[1..], p);
    }
  }

  /** The upper tiers' scaffold holds the handoff text at the handoff path. */
  lemma ScaffoldedHandoff(st: FsState, tier: string, t: Texts)
    requires WritesHandoff(tier)
    ensures HandoffPath in Scaffolded(st, tier, t).files
    ensures Scaffolded(st, tier, t).files[HandoffPath] == t.handoff
  {
    if tier == "advanced" {
      var top := st.files[ProtextMd := t.protext][HandoffPath := t.handoff][ConfigPath := t.config][IndexPath := t.index];
      WithScopeFilesKeepsOthers(top, t.scopeFiles, HandoffPath);
    }
  }

  /** The file names of the scope files. */
  function ScopeNames(scopeFiles: seq<(string, string)>): set<string> {
    set k | 0 <= k < |scopeFiles| :: scopeFiles[k].0 + ".md"
  }

  /** The files of an advanced scaffold: those of the fresh project, the four
      texts, and the scope files. */
  lemma ScaffoldedFiles(st: FsState, t: Texts)
    ensures Scaffolded(st, "advanced", t).files.Keys
      == st.files.Keys + {ProtextMd, HandoffPath, ConfigPath, IndexPath} + ScopePathsOf(t.scopeFiles)
    ensures Scaffolded(st, "advanced", t).dirs == st.dirs + {ProtextDir, ScopesDir}
  {
    var top := st.files[ProtextMd := t.protext][HandoffPath := t.handoff][ConfigPath := t.config][IndexPath := t.index];
    WithScopeFilesKeys(top, t.scopeFiles);
  }

  /** Every entry of `scopes` after an advanced scaffold of a fresh project is
      a scope file. */
  lemma ScopesChildIsScopeFile(st: FsState, t: Texts, n: string)
    requires st.Valid() && !HasPrior(st)
    requires n in Children(Scaffolded(st, "advanced", t), ScopesDir)
    ensures n in ScopeNames(t.scopeFiles)
  {
    var s := Scaffolded(st, "advanced", t);
    ScaffoldedFiles(st, t);
    var p :| p in s.files.Keys + s.dirs && |p| == |ScopesDir| + 1 && p[..|ScopesDir|] == ScopesDir && p[|ScopesDir|] == n;
    assert p[0] == ScopesDir[0] == ProtextDir[0];
    FreshHasNothingBelow(st, p);
    assert p !in st.files && p !in s.dirs;
    assert p !in {ProtextMd, HandoffPath, ConfigPath, IndexPath};
    assert p in ScopePathsOf(t.scopeFiles);
    var k :| 0 <= k < |t.scopeFiles| && p == ScopePath(t.scopeFiles[k].0);
  }

  /** After an advanced scaffold of a fresh project, `scopes` holds exactly
      the scope files. */
  lemma ScaffoldedScopes(st: FsState, t: Texts)
    requires st.Valid() && !HasPrior(st)
    ensures Children(Scaffolded(st, "advanced", t), ScopesDir) == ScopeNames(t.scopeFiles)
  {
    var s := Scaffolded(st, "advanced", t);
    forall n | n in Children(s, ScopesDir) ensures n in ScopeNames(t.scopeFiles) {
      ScopesChildIsScopeFile(st, t, n);
    }
    ScaffoldedFiles(st, t);
    forall n | n in ScopeNames(t.scopeFiles) ensures n in Children(s, ScopesDir) {
      var k :| 0 <= k < |t.scopeFiles| && n == t.scopeFiles[k].0 + ".md";
      var p := ScopePath(t.scopeFiles[k].0);
      assert p in ScopePathsOf(t.scopeFiles);
      assert p[..2] == ScopesDir && p[2] == n;
    }
  }

  /** `count_scopes` on an advanced scaffold of a fresh project counts the
      scope files. */
  lemma ScaffoldedScopeCount(st: FsState, t: Texts)
    requires st.Valid() && !HasPrior(st)
    ensures CountScopes(Scaffolded(st, "advanced", t)) == |ScopeNames(t.scopeFiles)|
  {
    var s := Scaffolded(st, "advanced", t);
    ScaffoldedScopes(st, t);
    forall n | n in ScopeNames(t.scopeFiles) ensures MatchesMd(n) {
      var k :| 0 <= k < |t.scopeFiles| && n == t.scopeFiles[k].0 + ".md";
      EndsWithAppend(t.scopeFiles[k].0, ".md", ".md");
    }
    assert MarkdownIn(s, ScopesDir) == ScopeNames(t.scopeFiles);
  }

  /** A scope file is named after its scope. */
  lemma ScopeFilesNames(scopes: seq<(string, string)>)
    ensures ScopeNames(ScopeFiles(scopes)) == ScopeNames(scopes)
  {
    var e := ScopeFiles(scopes);
    forall n | n in ScopeNames(scopes) ensures n in ScopeNames(e) {
      var k :| 0 <= k < |scopes| && n == scopes[k].0 + ".md";
      assert e[k].0 == scopes[k].0;
    }
  }

  lemma ThreeScopeNames(a: (string, string), b: (string, string), c: (string, string))
    ensures ScopeNames([a, b, c]) == {a.0 + ".md", b.0 + ".md", c.0 + ".md"}
  {
    var e := [a, b, c];
    assert e[0] == a && e[1] == b && e[2] == c;
  }

  /** The three default scopes give three distinct file names. */
  lemma DefaultScopeNames()
    ensures ScopeNames(ScopeDefaults) == {"ops.md", "dev.md", "security.md"}
    ensures |ScopeNames(ScopeDefaults)| == 3
  {
    var d := ScopeDefaults;
    ThreeScopeNames(d[0], d[1], d[2]);
    assert d == [d[0], d[1], d[2]];
    assert "ops" + ".md" == "ops.md" && "dev" + ".md" == "dev.md" && "security" + ".md" == "security.md";
    assert "ops.md"[0] != "dev.md"[0];
    assert "ops.md"[0] != "security.md"[0];
    assert "dev.md"[0] != "security.md"[0];
  }

  /** Such a project passes the guards of `init_protext` whatever the answer
      to the prompt, which is then never asked, and CLAUDE.md can be read. */
  lemma FreshPassesGuards(st: FsState, response: string, m: ClaudeMatches)
    requires Root in st.dirs && !HasPrior(st)
    requires !(ClaudeMd in st.dirs && ClaudeMd !in st.files)
    requires ClaudeMd in st.files ==> Enumerates(m.keyPathOrder, PathSpans(st.files[ClaudeMd]))
    ensures !Declines(st, response) && ProjectInfoOf(st, m).Ok?
  {
  }

  /** On a project directory holding no earlier artifacts and a readable
      CLAUDE.md (or none), `init_protext` returns True for every tier. */
  lemma FreshInitSucceeds(st: FsState, tier: string, env: Environment)
    requires EnvFits(st, env) && st.Valid()
    requires Root in st.dirs && !HasPrior(st)
    requires !(ClaudeMd in st.dirs && ClaudeMd !in st.files)
    ensures InitSpec(st, tier, env).result == Returned(true)
  {
    FreshPassesGuards(st, env.response, env.claude);
    DefaultScopePaths();
    FreshIsWritable(st, tier, ScopePaths);
    InitOutcome(st, tier, env);
  }

  /** The round trip of the two scripts: after `init_protext` with tier
      `tier` on such a project, `detect_tier` reports `tier` ("beginner" for
      a name other than the upper two). */
  lemma FreshInitReportsTier(st: FsState, tier: string, env: Environment)
    requires EnvFits(st, env) && st.Valid()
    requires Root in st.dirs && !HasPrior(st)
    requires !(ClaudeMd in st.dirs && ClaudeMd !in st.files)
    ensures DetectTier(InitSpec(st, tier, env).state) == (if WritesHandoff(tier) then tier else "beginner")
  {
    FreshPassesGuards(st, env.response, env.claude);
    FreshInitSucceeds(st, tier, env);
    InitOutcome(st, tier, env);
    ScaffoldedTier(st, tier, TextsFor(st, env, ProjectInfoOf(st, env.claude).value));
  }

  /** After an advanced `init_protext` on a fresh project, `count_scopes`
      reports the three default scopes. */
  lemma FreshAdvancedInitHasThreeScopes(st: FsState, env: Environment)
    requires EnvFits(st, env) && st.Valid()
    requires Root in st.dirs && !HasPrior(st)
    requires !(ClaudeMd in st.dirs && ClaudeMd !in st.files)
    ensures CountScopes(InitSpec(st, "advanced", env).state) == 3
  {
    FreshPassesGuards(st, env.response, env.claude);
    FreshInitSucceeds(st, "advanced", env);
    InitOutcome(st, "advanced", env);
    var t := TextsFor(st, env, ProjectInfoOf(st, env.claude).value);
    ScaffoldedScopeCount(st, t);
    ScopeFilesNames(ScopeDefaults);
    DefaultScopeNames();
  }

  // ---- The handoff `init_protext` writes, as `parse_handoff_status` reads it ----

  /** The title and status line at the head of a generated handoff. */
  function HandoffHead(now: string): string {
    HandoffTitle + HandoffStatusLine(now)
  }

  /** The text before `Updated:`, and between the stamp and `Status:`. */
  const StampLead := "# Session Handoff\n> "
  const WordLead := " | TTL: 48h | "

  lemma StatusLinePieces()
    ensures HandoffTitle + "> " == StampLead
    ensures "> Updated: " == "> " + "Updated: "
    ensures " | TTL: 48h | Status: FRESH\n" == WordLead + "Status: FRESH\n"
  {
  }

  /** Regrouping `t + (a + n + w) + r` where `t`, `a` and `w` split further. */
  lemma Regroup(t: string, g: string, u: string, now: string, w: string, f: string, rest: string)
    ensures t + (g + u + now + (w + f)) + rest == (t + g) + (u + now + (w + f + rest))
    ensures t + (g + u + now + (w + f)) + rest == ((t + g) + u + now + w) + (f + rest)
  {
  }

  lemma HandoffHeadPieces(now: string, rest: string)
    ensures HandoffHead(now) + rest == StampLead + ("Updated: " + now + (WordLead + "Status: FRESH\n" + rest))
    ensures HandoffHead(now) + rest == (StampLead + "Updated: " + now + WordLead) + ("Status: FRESH\n" + rest)
  {
    StatusLinePieces();
    Regroup(HandoffTitle, "> ", "Updated: ", now, WordLead, "Status: FRESH\n", rest);
  }

  /** A search meets its first match. */
  lemma SearchMeets(s: string, i: nat, at: (string, nat) -> Option<string>)
    requires i < |s| && at(s, i).Some?
    requires forall k :: 0 <= k < i ==> at(s, k).None?
    ensures Search(s, at) == at(s, i)
  {
    FirstMatchSkip(s, 0, i, at);
  }

  /** `Updated:` cannot match inside a prefix without a `U`. */
  lemma NoStampIn(p: string, q: string)
    requires 'U' !in p
    ensures forall k :: 0 <= k < |p| ==> UpdatedAt(p + q, k).None?
  {
    forall k | 0 <= k < |p| ensures UpdatedAt(p + q, k).None? {
      assert (p + q)[k..][0] == p[k];
    }
  }

  /** `Updated: ` followed by a stamp gives that stamp. */
  lemma StampAtHead(p: string, now: string, r: string)
    requires IsStamp(now)
    ensures UpdatedAt(p + ("Updated: " + now + r), |p|) == Some(now)
  {
    var s := p + ("Updated: " + now + r);
    assert s[|p|..] == "Updated: " + now + r;
    assert s[|p| + 8] == ' ' && s[|p| + 9] == now[0];
    assert SkipSpace(s, |p| + 8) == |p| + 9;
    assert s[|p| + 9..|p| + 25] == now;
  }

  /** No `Status:` can start inside `p`: every `S` is followed by something
      other than `t`. */
  predicate NoWordStart(p: string) {
    forall k :: 0 <= k < |p| && p[k] == 'S' ==> k + 1 < |p| && p[k + 1] != 't'
  }

  lemma NoWordStartAppend(x: string, y: string)
    requires NoWordStart(x) && NoWordStart(y)
    ensures NoWordStart(x + y)
  {
    forall k | 0 <= k < |x + y| && (x + y)[k] == 'S' ensures k + 1 < |x + y| && (x + y)[k + 1] != 't' {
      if k < |x| {
        assert x[k] == 'S';
      } else {
        assert y[k - |x|] == 'S';
      }
    }
  }

  lemma NoWordIn(p: string, q: string)
    requires NoWordStart(p)
    ensures forall k :: 0 <= k < |p| ==> StatusWordAt(p + q, k).None?
  {
    forall k | 0 <= k < |p| ensures StatusWordAt(p + q, k).None? {
      assert (p + q)[k..][0] == p[k];
      if p[k] == 'S' {
        assert (p + q)[k..][1] == p[k + 1];
      }
    }
  }

  /** `Status: FRESH` followed by a line break gives FRESH. */
  lemma WordAtHead(p: string, r: string)
    ensures StatusWordAt(p + ("Status: FRESH\n" + r), |p|) == Some("FRESH")
  {
    var s := p + ("Status: FRESH\n" + r);
    var i := |p|;
    assert s[i..] == "Status: FRESH\n" + r;
    assert s[i + 7] == ' ' && s[i + 8] == 'F';
    assert SkipSpace(s, i + 7) == i + 8;
    assert s[i + 8..i + 13] == "FRESH" && s[i + 13] == '\n';
    assert SkipWord(s, i + 8) == i + 13;
  }

  lemma StampHasNoLetterS(now: string)
    requires IsStamp(now)
    ensures NoWordStart(now)
  {
    forall k | 0 <= k < |now| ensures now[k] != 'S' {
      if k !in {4, 7, 10, 13} {
        assert IsDigit(now[k]);
      }
    }
  }

  /** The first `Updated:` stamp of a generated handoff is the one it was
      written with. */
  lemma HandoffStampFound(now: string, rest: string)
    requires IsStamp(now)
    ensures Search(HandoffHead(now) + rest, UpdatedAt) == Some(now)
  {
    HandoffHeadPieces(now, rest);
    var r := WordLead + "Status: FRESH\n" + rest;
    var q := "Updated: " + now + r;
    NoStampIn(StampLead, q);
    StampAtHead(StampLead, now, r);
    SearchMeets(StampLead + q, |StampLead|, UpdatedAt);
  }

  /** The first `Status:` word of a generated handoff is FRESH. */
  lemma HandoffWordFound(now: string, rest: string)
    requires IsStamp(now)
    ensures Search(HandoffHead(now) + rest, StatusWordAt) == Some("FRESH")
  {
    HandoffHeadPieces(now, rest);
    var lead := StampLead + "Updated: " + now + WordLead;
    assert NoWordStart(StampLead + "Updated: ");
    StampHasNoLetterS(now);
    NoWordStartAppend(StampLead + "Updated: ", now);
    assert NoWordStart(WordLead);
    NoWordStartAppend(StampLead + "Updated: " + now, WordLead);
    NoWordIn(lead, "Status: FRESH\n" + rest);
    WordAtHead(lead, rest);
    SearchMeets(lead + ("Status: FRESH\n" + rest), |lead|, StatusWordAt);
  }

  lemma FreshIsUpper()
    ensures Upper("FRESH") == "FRESH"
  {
    UpperWithoutLower("FRESH");
  }

  /** A handoff written by `init_protext` at `now` reads as FRESH whatever its
      age, since its own `Status: FRESH` overrides the age; its stamp is `now`
      whenever the clock can read it. */
  lemma GeneratedHandoffReadsFresh(now: string, ageOf: string -> Option<int>)
    requires IsStamp(now)
    ensures HandoffOf(HandoffMd(now), ageOf).status == "FRESH"
    ensures HandoffOf(HandoffMd(now), ageOf).updated == (if ageOf(now).Some? then Some(now) else None)
  {
    assert HandoffMd(now) == HandoffHead(now) + HandoffBody;
    HandoffStampFound(now, HandoffBody);
    HandoffWordFound(now, HandoffBody);
    FreshIsUpper();
  }

  /** After `init_protext` with an upper tier on a fresh project, at a time
      `now` that has the stamp's form, `parse_handoff_status` reads the new
      handoff as FRESH. */
  lemma FreshInitHandoffIsFresh(st: FsState, tier: string, env: Environment, ageOf: string -> Option<int>)
    requires EnvFits(st, env) && st.Valid()
    requires Root in st.dirs && !HasPrior(st)
    requires !(ClaudeMd in st.dirs && ClaudeMd !in st.files)
    requires WritesHandoff(tier) && IsStamp(env.now)
    ensures HandoffStatusOf(InitSpec(st, tier, env).state, ageOf) == Ok(HandoffOf(HandoffMd(env.now), ageOf))
    ensures HandoffOf(HandoffMd(env.now), ageOf).status == "FRESH"
  {
    FreshPassesGuards(st, env.response, env.claude);
    FreshInitSucceeds(st, tier, env);
    InitOutcome(st, tier, env);
    ScaffoldedHandoff(st, tier, TextsFor(st, env, ProjectInfoOf(st, env.claude).value));
    GeneratedHandoffReadsFresh(env.now, ageOf);
  }
}
