/** The part of the filesystem the two scripts touch, seen from the project
    directory: a map from path to file contents and a set of directories.
    `Path.write_text` and `Path.mkdir(exist_ok=True)` are the only mutations;
    `exists`, `is_dir` and `read_text` are the only queries. */
module Fs {
  import opened Options

  /** A path relative to the project directory, as its components; `[]` is the
      project directory itself. */
  type Path = seq<string>

  const Root: Path := []

  function Parent(p: Path): Path
    requires |p| > 0
  {
    p[..|p| - 1]
  }

  /** The `OSError` subclasses the scripts' filesystem calls can raise. */
  datatype FsError =
    | IsADirectory(path: Path)   // write_text or read_text on a directory
    | NotADirectory(path: Path)  // a leading component of the path is a file
    | FileNotFound(path: Path)   // the path or its parent does not exist
    | FileExists(path: Path)     // mkdir(exist_ok=True) where a file is

  /** A value, or the exception that a call raised instead. */
  datatype Result<+T> = Ok(value: T) | Err(error: FsError)

  /** One mutation: `Path.write_text(text)` or `Path.mkdir(exist_ok=True)`. */
  datatype Step = WriteFile(path: Path, text: string) | MakeDir(path: Path)

  /** The state after some mutations, and the exception that stopped them, if any. */
  datatype Outcome = Outcome(state: FsState, error: Option<FsError>)

  /** The paths a sequence of mutations touches. */
  function Paths(steps: seq<Step>): set<Path> {
    set k | 0 <= k < |steps| :: steps[k].path
  }

  lemma PathsCons(steps: seq<Step>)
    requires |steps| > 0
    ensures Paths(steps) == {steps[0].path} + Paths(steps[1..])
  {
    forall q | q in Paths(steps) ensures q in {steps[0].path} + Paths(steps[1..]) {
      var k :| 0 <= k < |steps| && steps[k].path == q;
      if k > 0 {
        assert steps[1..][k - 1].path == q;
      }
    }
    forall q | q in Paths(steps[1..]) ensures q in Paths(steps) {
      var k :| 0 <= k < |steps[1..]| && steps[1..][k].path == q;
      assert steps[k + 1].path == q;
    }
  }

  lemma PathsAppend(a: seq<Step>, b: seq<Step>)
    ensures Paths(a + b) == Paths(a) + Paths(b)
  {
    forall q | q in Paths(a + b) ensures q in Paths(a) + Paths(b) {
      var k :| 0 <= k < |a + b| && (a + b)[k].path == q;
      if k >= |a| {
        assert b[k - |a|].path == q;
      }
    }
    forall q | q in Paths(a) + Paths(b) ensures q in Paths(a + b) {
      if q in Paths(a) {
        var k :| 0 <= k < |a| && a[k].path == q;
        assert (a + b)[k].path == q;
      } else {
        var k :| 0 <= k < |b| && b[k].path == q;
        assert (a + b)[|a| + k].path == q;
      }
    }
  }

  lemma PathsOfPair(a: Step, b: Step)
    ensures Paths([a, b]) == {a.path, b.path}
  {
    assert [a, b][0].path == a.path && [a, b][1].path == b.path;
  }

  datatype FsState = FsState(files: map<Path, string>, dirs: set<Path>) {

    /** `Path.exists()`. */
    predicate Exists(p: Path) {
      p in files || p in dirs
    }

    /** No path is both a file and a directory, and every entry other than the
        project directory lies in a directory. */
    ghost predicate Valid() {
      && files.Keys !! dirs
      && (forall p :: p in files && |p| > 0 ==> Parent(p) in dirs)
      && (forall p :: p in dirs && |p| > 0 ==> Parent(p) in dirs)
    }

    /** The two states agree on what `q` is and holds. */
    predicate SameAt(other: FsState, q: Path) {
      && (q in files <==> q in other.files)
      && (q in files ==> files[q] == other.files[q])
      && (q in dirs <==> q in other.dirs)
    }

    /** The error the OS reports for a path that cannot be reached. */
    function Missing(p: Path): FsError {
      if exists k :: 0 <= k < |p| && p[..k] in files then NotADirectory(p) else FileNotFound(p)
    }

    /** `Path.read_text()`. */
    function Read(p: Path): (r: Result<string>)
      ensures r.Ok? <==> p in files
      ensures p in files ==> r.value == files[p]
      ensures p in dirs && p !in files ==> r == Err(IsADirectory(p))
    {
      if p in files then Ok(files[p])
      else if p in dirs then Err(IsADirectory(p))
      else Err(Missing(p))
    }

    /** Performs one mutation. A write replaces or creates a file in an existing
        directory; making a directory that already exists does nothing. */
    function Apply(step: Step): (o: Outcome)
      ensures o.error.Some? ==> o.state == this
      ensures step.WriteFile? ==>
        (o.error.None? <==> step.path !in dirs && (|step.path| == 0 || Parent(step.path) in dirs))
      ensures step.MakeDir? ==>
        (o.error.None? <==> step.path in dirs || (step.path !in files && (|step.path| == 0 || Parent(step.path) in dirs)))
      ensures o.error.None? && step.WriteFile? ==>
        o.state == FsState(files[step.path := step.text], dirs)
      ensures o.error.None? && step.MakeDir? ==> o.state == FsState(files, dirs + {step.path})
    {
      match step
      case WriteFile(p, t) =>
        if p in dirs then Outcome(this, Some(IsADirectory(p)))
        else if |p| > 0 && Parent(p) !in dirs then Outcome(this, Some(Missing(p)))
        else Outcome(FsState(files[p := t], dirs), None)
      case MakeDir(p) =>
        if p in dirs then Outcome(this, None)
        else if p in files then Outcome(this, Some(FileExists(p)))
        else if |p| > 0 && Parent(p) !in dirs then Outcome(this, Some(Missing(p)))
        else Outcome(FsState(files, dirs + {p}), None)
    }

    /** A mutation never leaves a file and a directory at the same path, nor an
        entry outside a directory. */
    lemma ApplyKeepsValid(step: Step)
      requires Valid()
      ensures Apply(step).state.Valid()
    {
    }

    /** Performs the mutations in order and stops at the first one that raises;
        the ones already done stay done. */
    function Run(steps: seq<Step>): Outcome
      decreases |steps|
    {
      if steps == [] then Outcome(this, None)
      else
        var first := Apply(steps[0]);
        if first.error.Some? then first
        else first.state.Run(steps[1..])
    }

    /** Running a plan keeps the state valid and removes nothing. */
    lemma {:induction false} RunKeepsValid(steps: seq<Step>)
      ensures Valid() ==> Run(steps).state.Valid()
      ensures files.Keys <= Run(steps).state.files.Keys && dirs <= Run(steps).state.dirs
      decreases |steps|
    {
      if steps != [] {
        var first := Apply(steps[0]);
        if first.error.None? {
          if Valid() {
            ApplyKeepsValid(steps[0]);
          }
          first.state.RunKeepsValid(steps[1..]);
        }
      }
    }

    /** Running a plan changes nothing outside the plan's paths and, when no
        step raises, leaves every path of the plan in place. */
    lemma {:induction false} RunFrame(steps: seq<Step>)
      ensures forall q :: q !in Paths(steps) ==> Run(steps).state.SameAt(this, q)
      ensures Run(steps).error.None? ==> forall q :: q in Paths(steps) ==> Run(steps).state.Exists(q)
      decreases |steps|
    {
      if steps != [] {
        var first := Apply(steps[0]);
        if first.error.None? {
          PathsCons(steps);
          first.state.RunFrame(steps[1..]);
        }
      }
    }

    /** Running two plans one after the other is running their concatenation. */
    lemma {:induction false} RunAppend(a: seq<Step>, b: seq<Step>)
      ensures Run(a + b) == if Run(a).error.Some? then Run(a) else Run(a).state.Run(b)
      decreases |a|
    {
      if a == [] {
        assert a + b == b;
      } else {
        var first := Apply(a[0]);
        assert (a + b)[0] == a[0];
        assert (a + b)[1..] == a[1..] + b;
        if first.error.None? {
          first.state.RunAppend(a[1..], b);
        }
      }
    }

    /** Running a plan is performing its first step and then running the rest. */
    lemma RunCons(s: Step, rest: seq<Step>)
      ensures Run([s] + rest) == if Apply(s).error.Some? then Apply(s) else Apply(s).state.Run(rest)
    {
      assert ([s] + rest)[1..] == rest;
    }

    /** A plan that raises leaves the filesystem as the steps before the failing
        one made it: nothing is rolled back and nothing after it is attempted. */
    lemma {:induction false} RunFailureKeepsCompletedSteps(steps: seq<Step>)
      requires Run(steps).error.Some?
      ensures exists k :: (0 <= k < |steps|
        && Run(steps[..k]).error.None?
        && Run(steps[..k]).state == Run(steps).state
        && Run(steps[..k]).state.Apply(steps[k]).error == Run(steps).error)
      decreases |steps|
    {
      var first := Apply(steps[0]);
      if first.error.Some? {
        assert steps[..0] == [];
        assert Run(steps[..0]) == Outcome(this, None);
      } else {
        var rest := steps[1..];
        first.state.RunFailureKeepsCompletedSteps(rest);
        var k :| 0 <= k < |rest|
          && first.state.Run(rest[..k]).error.None?
          && first.state.Run(rest[..k]).state == first.state.Run(rest).state
          && first.state.Run(rest[..k]).state.Apply(rest[k]).error == first.state.Run(rest).error;
        assert steps[..k + 1] == [steps[0]] + rest[..k];
        RunCons(steps[0], rest[..k]);
        assert steps == [steps[0]] + rest;
        RunCons(steps[0], rest);
        assert steps[k + 1] == rest[k];
      }
    }
  }

  /** The filesystem as the scripts mutate it in place. */
  class FileSystem {
    var files: map<Path, string>
    var dirs: set<Path>

    function State(): FsState
      reads this
    {
      FsState(files, dirs)
    }

    constructor (init: FsState)
      ensures State() == init
    {
      files := init.files;
      dirs := init.dirs;
    }

    /** `Path.write_text(text)`: `err` is the exception it raises, if any. */
    method WriteText(p: Path, text: string) returns (err: Option<FsError>)
      modifies this
      ensures Outcome(State(), err) == old(State()).Apply(WriteFile(p, text))
    {
      if p in dirs {
        err := Some(IsADirectory(p));
      } else if |p| > 0 && Parent(p) !in dirs {
        err := Some(State().Missing(p));
      } else {
        files := files[p := text];
        err := None;
      }
    }

    /** `Path.mkdir(exist_ok=True)`: `err` is the exception it raises, if any. */
    method Mkdir(p: Path) returns (err: Option<FsError>)
      modifies this
      ensures Outcome(State(), err) == old(State()).Apply(MakeDir(p))
    {
      if p in dirs {
        err := None;
      } else if p in files {
        err := Some(FileExists(p));
      } else if |p| > 0 && Parent(p) !in dirs {
        err := Some(State().Missing(p));
      } else {
        dirs := dirs + {p};
        err := None;
      }
    }
  }
}

/** The fixed path convention both scripts share. */
module Layout {
  import opened Text
  import opened Fs

  const ProtextMd: Path := ["PROTEXT.md"]
  const ProtextDir: Path := [".protext"]
  const HandoffPath: Path := [".protext", "handoff.md"]
  const ConfigPath: Path := [".protext", "config.yaml"]
  const IndexPath: Path := [".protext", "index.yaml"]
  const ScopesDir: Path := [".protext", "scopes"]
  const ClaudeMd: Path := ["CLAUDE.md"]
  const DocsDir: Path := ["docs"]

  /** `.protext/scopes/<name>.md`. */
  function ScopePath(name: string): Path {
    ScopesDir + [name + ".md"]
  }

  /** The names of the entries directly inside `dir`. */
  function Children(st: FsState, dir: Path): set<string> {
    set p | p in st.files.Keys + st.dirs && |p| == |dir| + 1 && p[..|dir|] == dir :: p[|dir|]
  }

  /** What `dir.glob("*.md")` yields: the names in `dir` that the pattern
      selects, and nothing when `dir` is not a directory. */
  function MarkdownIn(st: FsState, dir: Path): set<string> {
    if dir in st.dirs then set n | n in Children(st, dir) && MatchesMd(n) else {}
  }

  /** A directory entry that the glob pattern `*.md` selects (case-sensitive,
      leading dots included, as `pathlib` globs on POSIX). */
  predicate MatchesMd(name: string) {
    EndsWith(name, ".md")
  }
}
