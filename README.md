# protext initializer and status reader, modelled in Dafny

protext is a convention for keeping an AI coding assistant's working context
in a project: a top-level `PROTEXT.md`, and a `.protext/` directory with
four more files. `handoff.md` is a session handoff. `config.yaml` and
`index.yaml` hold the configuration and an extraction index. `scopes/*.md`
are per-scope focus files. Two scripts make up the core.

- `scripts/init_protext.py` scaffolds that structure for a tier:
  - `beginner` writes `PROTEXT.md` only;
  - `intermediate` also writes `.protext/` and the handoff;
  - `advanced` also writes the configuration, the index and three scope files.

  It runs after three guards: the path exists, the path is a directory, and
  an earlier initialization is overwritten only after a "y".
- `scripts/protext_status.py` reads the structure back, without writing:
  - the tier;
  - how fresh the handoff is;
  - the active scope and the token budget;
  - the number of extractions and scope files;
  - a token estimate for `PROTEXT.md`.

The project is modelled as a filesystem value, `Fs.FsState`: a map from
relative paths to file contents, plus a set of directories.

- `Fs.FsState.Apply` gives `write_text` and `mkdir(exist_ok=True)` the meaning,
  and the exceptions, that they have on such a state.
- `Fs.FileSystem` is a class holding the same two fields. Its `WriteText`
  and `Mkdir` methods are proved equal to `Apply`.

The initializer is modelled twice, and the two are proved equal:

- as a plan of mutations (`Initializer.WritePlan`) and its result
  (`Initializer.InitSpec`);
- as the imperative method `Initializer.InitProtext`, which writes step by
  step through the class, and `InitSpec` is its specification.

The status reader consists of pure functions over an `FsState`. The
fallback YAML reader, `SimpleYaml.ParseYamlSimple`, is the imperative loop of
`parse_yaml_simple`. It is proved equal to a fold over classified lines,
`SimpleYaml.ParseAll`. The two scripts meet in `RoundTrip`, which proves the
following of a fresh `init_protext`. Fresh means a well-formed tree whose
root is a directory, with no earlier artifacts and with no directory named
`CLAUDE.md`; such a directory would make `read_text` raise. Writes are
taken to use an encoding that can represent every character (see "## Left out").

- it returns normally;
- `detect_tier` then reports the requested tier;
- an advanced init leaves exactly `ops.md`, `dev.md` and `security.md` for
  `count_scopes`;
- the new handoff reads back as FRESH.

Inputs that the scripts get from the environment are parameters
(`Initializer.Environment`), one per kind:

- the answer to the prompt;
- the directory name;
- the date and time stamps;
- the order in which `glob` lists `docs/`;
- what the two left-out regular expressions match, and the order of a
  Python `set`;
- for the status reader, a clock that turns a stamp into an age in whole
  seconds.

The code has no conflict modes (`archive`, `replace`, `update`), no dated
archive directory, no deny-list of generic titles and no project name taken
from the directory name. After an interactive y/N prompt it overwrites the
earlier files in place, and the model does the same.

Two behaviours of the code are proved as they are.

- The fallback reader keeps an inline comment as part of the value. So the
  generated `token_budget: 2000        # Max tokens per session` is not an
  integer to `int()`, and the budget falls back to the default 2000
  (`Status.CommentedBudgetIsDefault`).
- A generated handoff says `Status: FRESH` in its own header. That word
  overrides the age, so such a handoff reads as FRESH however old it is
  (`RoundTrip.GeneratedHandoffReadsFresh`).

## Model

| member | source | states |
|---|---|---|
| Fs.FsState.Read | scripts/protext_status.py:102 | `read_text` returns the file's text as `files` holds it, that is already decoded and with newlines translated (see Left out). On a directory it raises `IsADirectoryError`. |
| Fs.FsState.Apply | scripts/init_protext.py:269-274 | `write_text` succeeds exactly when the path is not a directory and its parent is one, and then replaces only that file. `mkdir(exist_ok=True)` succeeds on an existing directory, or where nothing is and the parent is a directory, and then adds only that directory. A failed step changes nothing. |
| Fs.FsState.ApplyKeepsValid | scripts/init_protext.py:269-299 | A step keeps the filesystem well formed: no path is both a file and a directory, and every entry lies in a directory. |
| Fs.FsState.RunKeepsValid | scripts/init_protext.py:267-299 | A sequence of steps keeps the filesystem well formed, and it never removes a file or a directory. |
| Fs.FsState.RunFrame | scripts/init_protext.py:267-299 | Steps change nothing at a path they do not name. When they all succeed, every path they name exists. |
| Fs.FsState.RunAppend | scripts/init_protext.py:267-299 | Running two plans in a row is running their concatenation. Execution stops at the first exception. |
| Fs.FsState.RunFailureKeepsCompletedSteps | scripts/init_protext.py:267-299 | When a step raises, the final state is the one the steps before it left, and the error is that step's. Nothing is rolled back, and no later step runs. |
| Fs.FileSystem.WriteText | scripts/init_protext.py:269 | The in-place write has exactly the outcome that `Apply` gives a `WriteFile` step. |
| Fs.FileSystem.Mkdir | scripts/init_protext.py:274 | The in-place `mkdir(exist_ok=True)` has exactly the outcome that `Apply` gives a `MakeDir` step. |
| Extractor.ExtractProjectInfo | scripts/init_protext.py:22-60 | Without CLAUDE.md, the result is the defaults ("Unknown Project", empty identity, empty lists). Otherwise: <br>- the name is the first heading's stripped text, or "Unknown Project"; <br>- the identity is the stripped purpose text cut to 200 characters; <br>- at most 5 service rows, each stripped; <br>- at most 10 distinct key paths, each a match of the key-path pattern in CLAUDE.md (a slash and at least one more character between backticks), and all of them when fewer than 10 exist. |
| Extractor.Identity | scripts/init_protext.py:45-46 | The identity is the beginning of the stripped purpose text: all of it, or its first 200 characters when it is longer. |
| Extractor.StrippedRows | scripts/init_protext.py:53 | Each service row keeps its place and has both cells stripped. |
| Extractor.KeyPaths | scripts/init_protext.py:56-58 | At most 10 key paths, taken from the front of the set's iteration order. They are distinct matches of the key-path pattern in CLAUDE.md, each a slash and at least one more character. When fewer than 10 exist, all of them are kept. |
| Extractor.ReadProjectInfo | scripts/init_protext.py:22-60 | Filling the dict step by step gives `ExtractProjectInfo` of the file. The one exception is a CLAUDE.md that is a directory, where `read_text` raises. A missing file gives the defaults. |
| Extractor.TitleOfOpeningHeading | scripts/init_protext.py:37-39 | A document that opens with `# <title>` is named by `<title>`. |
| Extractor.BareHashTakesNextLine | scripts/init_protext.py:37 | `\s+` in `^#\s+(.+)$` runs over a line break, so a bare `#` line names the project after the next line. |
| Extractor.PathSpansAreSpans | scripts/init_protext.py:57 | Every match of the key-path pattern is a slash followed by at least one character, with no backtick in it. |
| Extractor.PathSpanFound | scripts/init_protext.py:57 | A backtick span holding a slash and at least one more character, none of them a backtick, is found. Matching goes on after its closing backtick. |
| Extractor.PathSpansSkip | scripts/init_protext.py:57 | Text without a backtick holds no match, so the matches after it are all there are. |
| Extractor.KeyPathInProse | scripts/init_protext.py:57 | "see `/etc`" gives exactly ["/etc"]. |
| Extractor.PathSpans | scripts/init_protext.py:57 | `re.findall` of the key-path pattern. Each match takes at least four characters of the text, so there are at most a quarter as many matches as characters. |
| Extractor.BareSlashSkipped | scripts/init_protext.py:57 | A lone slash between backticks is no match. The scan moves on by one character, so its closing backtick can open the next match. |
| Extractor.BareSlashAlone | scripts/init_protext.py:57 | The text "`/`" holds no key path. |
| Extractor.SpanAfterBareSlash | scripts/init_protext.py:57 | In "`/`/etc`" the one key path is "/etc". |
| Extractor.HeadingAt | scripts/init_protext.py:37 | A match of `^#\s+(.+)$` starts at a `#` that begins a line and is followed by whitespace. |
| Extractor.HeadingTitle | scripts/init_protext.py:37 | A `#` that begins a line, followed by whitespace up to a non-whitespace character, always matches. The title is the rest of that line, stripped. |
| Extractor.TitleMatch | scripts/init_protext.py:37-39 | There is a title exactly when the heading pattern matches somewhere. The title is the one at the first position where it matches. |
| Extractor.Stem | scripts/init_protext.py:70-74 | `PurePath.stem` is a prefix of the file name. It is either the whole name, or it is non-empty and is followed by the last dot of the name. |
| Extractor.StemOfMarkdown | scripts/init_protext.py:70-74 | The stem of `x.md` is `x`, and `x.md` is its stem plus `.md`. |
| Extractor.DetectDocsStructure | scripts/init_protext.py:63-77 | The result is empty without `docs/`. Otherwise it holds one record per listed file, in order, for at most 20 files. Each record has the lower-cased stem as name, `docs/<file>` as source and `<stem> documentation` as summary. |
| Templates.ProtextMdFrame | scripts/init_protext.py:80-115 | PROTEXT.md begins with `# Protext: <name>` and ends with the fixed sections from Current State to Handoff. |
| Templates.RenderIdentity | scripts/init_protext.py:84-86 | The shown identity is at most 200 characters. It is the extracted identity when that is non-empty and fits, and `Project at <dir>` when the identity is empty. A longer text becomes its first 197 characters plus `...`. |
| Templates.ExtractedIdentityShownUnchanged | scripts/init_protext.py:47 | A non-empty identity from CLAUDE.md is shown unchanged in PROTEXT.md, because it is never cut twice. |
| Templates.TriggersFor | scripts/init_protext.py:127-138 | The triggers come from the six-entry table when the name is a key of it, and are `[name]` otherwise. |
| Templates.Repr | scripts/init_protext.py:142 | `repr` of a string is enclosed in a matching pair of quotes. They are double quotes exactly when the text holds a single quote and no double quote, and single quotes otherwise. |
| Templates.ListRepr | scripts/init_protext.py:142 | `str` of a list is enclosed in square brackets, and is `[]` exactly for the empty list. |
| Templates.ReprOfPlain | scripts/init_protext.py:142 | A trigger word without quotes, backslashes or control characters is printed between single quotes. |
| Templates.IndexYamlFrame | scripts/init_protext.py:118-157 | index.yaml begins with its header, and without extractions it ends with the commented example. |
| Templates.CreateIndexYaml | scripts/init_protext.py:118-157 | Appending block by block builds the header, one block per extraction in order, and the example block only for an empty list. |
| Templates.ExampleOnlyWhenEmpty | scripts/init_protext.py:147-155 | index.yaml ends with the commented example exactly when no documentation was found. |
| Initializer.InitSpec | scripts/init_protext.py:233-254 | `init_protext` returns False exactly when one of these holds: <br>- the path is missing; <br>- the path is not a directory; <br>- an earlier PROTEXT.md or `.protext` exists and the stripped, lower-cased answer is not "y". <br>It then leaves the filesystem as it was. |
| Initializer.Initialize | scripts/init_protext.py:256-309 | Past the guards, the function never returns False. A CLAUDE.md that is a directory raises before anything is written. |
| Initializer.Perform | scripts/init_protext.py:267-309 | Performing the plan returns True when every step succeeds. Otherwise the exception of the failing step escapes: the error raised is the one that step gave, and the state is the one the plan left. |
| Initializer.InitPerformsPlan | scripts/init_protext.py:256-299 | Past the guards with a readable CLAUDE.md, `init_protext` performs exactly the write plan of its tier, in the source's order. |
| Initializer.PlanPaths | scripts/init_protext.py:267-299 | The plan names exactly the tier's paths: <br>- beginner: PROTEXT.md; <br>- intermediate: also `.protext` and the handoff; <br>- advanced: also the configuration, the index, `scopes` and the scope files. |
| Initializer.PlanOutcome | scripts/init_protext.py:267-299 | The plan runs to the end exactly when no file it writes is a directory and `.protext` and `scopes` are directories or absent. It then leaves each text at its path. |
| Initializer.ScopeRun | scripts/init_protext.py:296-299 | Inside an existing `scopes`, the loop writes every scope file exactly when none of them is a directory. |
| Initializer.InitOutcome | scripts/init_protext.py:256-299 | Past the guards with a readable CLAUDE.md, `init_protext` returns True exactly when the project is writable for the tier, and raises otherwise. On success the project holds the tier's texts. An existing `.protext` or `scopes` directory is no obstacle. |
| Initializer.InitTouchesOnlyTierPaths | scripts/init_protext.py:267-299 | Whatever `init_protext` returns, it changes nothing at a path outside its tier's paths. |
| Initializer.InitCreatesTierPaths | scripts/init_protext.py:267-299 | When `init_protext` returns True, every path of its tier exists. |
| Initializer.DefaultScopePaths | scripts/init_protext.py:226-230 | The three entries of `SCOPE_DEFAULTS` give `ops.md`, `dev.md` and `security.md`. |
| Initializer.WriteHandoffFiles | scripts/init_protext.py:272-279 | Making `.protext` and writing the handoff has the outcome of the handoff steps. |
| Initializer.WriteScopeFiles | scripts/init_protext.py:296-299 | The loop over the scopes has the outcome of one write per scope, in order, stopping at the first exception. |
| Initializer.WriteAdvancedFiles | scripts/init_protext.py:281-299 | The advanced writes have the outcome of the advanced steps: configuration, index, `scopes`, then the scope files. |
| Initializer.Scaffold | scripts/init_protext.py:267-299 | The in-place writes for a tier have the outcome of that tier's plan. |
| Initializer.InitializeProject | scripts/init_protext.py:256-299 | Reading CLAUDE.md and then writing through the filesystem object gives the state and result of `Initialize`. |
| Initializer.InitProtext | scripts/init_protext.py:233-309 | The imperative `init_protext` gives the state and result of `InitSpec`. |
| SimpleYaml.ParseYaml | scripts/protext_status.py:25-52 | The keys of `parse_yaml_simple`'s result are exactly the keys of its top-level lines. |
| SimpleYaml.KeysAreTopKeys | scripts/protext_status.py:36-44 | After any sequence of lines, a key is in the result exactly when a top-level line names it. |
| SimpleYaml.ParseYamlSimple | scripts/protext_status.py:25-52 | The loop that mutates `result` and `current_section` line by line computes the fold `ParseYaml` over the classified lines. |
| SimpleYaml.Step | scripts/protext_status.py:45-50 | `current_section`, once set, is always a key of `result`, so `result[current_section]` never raises. |
| SimpleYaml.SkippedLinesIgnored | scripts/protext_status.py:32-33 | Blank lines and lines whose stripped text starts with `#` are skipped. |
| SimpleYaml.TopLineSplitsAtFirstColon | scripts/protext_status.py:36-39 | An unindented line with a colon is split at its first colon into a stripped key and a stripped value. |
| SimpleYaml.NestedLineSplitsAtFirstColon | scripts/protext_status.py:45-48 | A line indented by two spaces is split at its first colon in the same way. |
| SimpleYaml.LastTopDecides | scripts/protext_status.py:36-44 | A key is in the result exactly when a top-level line names it, and the last such line decides: a non-empty value gives that string, an empty value gives a mapping. |
| SimpleYaml.CurrentIsLastOpened | scripts/protext_status.py:40-44 | `current_section` is the key of the last top-level line with an empty value. A later key that has a value does not reset it. |
| SimpleYaml.IgnoredWithoutSection | scripts/protext_status.py:45 | An indented line changes nothing before any section is open, or while the open section's name is empty. |
| SimpleYaml.NestedIntoSection | scripts/protext_status.py:45-50 | An indented line adds its pair to the open section while that entry is still a mapping. It is dropped once a later line has given the key a value. |
| SimpleYaml.IgnoredIrrelevant | scripts/protext_status.py:32-33 | Skipped lines can be removed anywhere without changing the result. |
| SimpleYaml.EmptyKeySectionStaysEmpty | scripts/protext_status.py:45 | A section whose key is empty stays an empty mapping, because an empty `current_section` is falsy. |
| Status.TierCases | scripts/protext_status.py:71-84 | Each tier is reported exactly when its files are present and the next tier's are not: <br>- "none" without PROTEXT.md; <br>- "beginner" without `.protext`; <br>- "intermediate" without `index.yaml`; <br>- "advanced" otherwise. |
| Status.TierIgnoresHandoff | scripts/protext_status.py:75-84 | The tier depends only on the presence of the three paths; the handoff plays no part. |
| Status.HandoffChangeKeepsTier | scripts/protext_status.py:75-84 | Writing or removing the handoff leaves the tier unchanged. |
| Status.LoadYaml | scripts/protext_status.py:55-68 | An absent file reads as an empty mapping and a file as the fallback reader's result. A directory raises. |
| Status.CountExtractions | scripts/protext_status.py:137-149 | The count is 0 without `index.yaml`. |
| Status.ValuedExtractionsCountZero | scripts/protext_status.py:145-149 | When the last top-level `extractions:` line has a value, or no such line exists, the count is 0. |
| Status.SectionExtractionsCounted | scripts/protext_status.py:145-148 | When the last top-level `extractions:` line opens a mapping, the count is its number of keys. |
| Status.CountScopes | scripts/protext_status.py:152-159 | The count is that of the `*.md` entries of `scopes`, and 0 when `scopes` is absent. |
| Status.ActiveScope | scripts/protext_status.py:162-170 | The active scope is: <br>- "none" without a configuration; <br>- "ops" when the key is missing; <br>- otherwise the parsed value of `active_scope`, a mapping included. <br>A configuration that is a directory raises. |
| Status.BudgetOf | scripts/protext_status.py:181-184 | A scalar `token_budget` value that `int()` accepts is the budget. Any budget other than 2000 comes from such a value. |
| Status.TokenBudget | scripts/protext_status.py:173-184 | The budget is 2000 without a configuration, and the budget read from it when it is a file. A configuration that is a directory raises, because `load_yaml` calls `read_text` outside its `try`. |
| Status.BudgetDefaults | scripts/protext_status.py:181-184 | The budget falls back to 2000 when the key is missing, holds a mapping, or holds text that `int` rejects. |
| Text.Split | scripts/protext_status.py:30 | `str.split('\n')` gives at least one piece, and no piece holds the separator. A text without the separator is one piece. |
| Text.SplitAtFirst | scripts/protext_status.py:30 | Splitting a text that has a separator after a separator-free prefix gives that prefix, then the split of everything after the separator. |
| Text.ParseInt | scripts/protext_status.py:182 | A text `int()` accepts is non-empty after stripping and ends in a digit. A negative result needs a leading minus sign. |
| Text.ParseIntRejects | scripts/protext_status.py:182 | `int()` rejects a text holding a character that is not whitespace, a digit, an underscore or a sign. |
| Text.ParseIntOfIntToString | scripts/protext_status.py:182 | `int(str(n)) == n` for every integer `n`. |
| Text.Search | scripts/protext_status.py:106-109 | `re.search` finds nothing exactly when no position of the text matches. |
| Text.SearchReportsAMatch | scripts/protext_status.py:106-109 | When `re.search` finds something, it is the match at the leftmost position where the pattern matches. |
| Status.BudgetReadsBack | scripts/protext_status.py:182 | A budget written as `str(n)` reads back as `n`. Negative values and a sign are included. |
| Status.CommentedBudgetIsDefault | scripts/protext_status.py:182-184 | A budget value that carries an inline `#` comment is not an integer, so the budget is 2000. |
| Status.EstimateTokens | scripts/protext_status.py:187-196 | The estimate is `len(content) // 4`, 0 without PROTEXT.md. A directory raises. |
| Status.UpdatedAt | scripts/protext_status.py:106-109 | A match of `Updated:\s*(...)` is `Updated:` at that position, and its group is a well-formed `YYYY-MM-DDTHH:MM` stamp. |
| Status.UpdatedAtFindsStamp | scripts/protext_status.py:106-109 | `Updated:`, then any whitespace, then a well-formed stamp always matches, and the group is that stamp. |
| Status.UpdatedAtGroup | scripts/protext_status.py:106-109 | After `Updated:` and its whitespace, the group is the next 16 characters when they form a stamp. Otherwise there is no match at that position. |
| Status.StatusWordAt | scripts/protext_status.py:128 | A match of `Status:\s*(\w+)` is `Status:` at that position, and its group is a non-empty run of word characters. |
| Status.StatusWordGroup | scripts/protext_status.py:128 | After `Status:` and its whitespace, the group is the whole run of word characters that follows. There is no match when that run is empty. |
| Status.AgeStatus | scripts/protext_status.py:118-123 | An age under 24 hours gives FRESH, under 48 hours AGING, and otherwise STALE, each exactly at its range. |
| Status.AgeStatusMonotone | scripts/protext_status.py:118-123 | An older handoff is never reported fresher. |
| Status.HandoffOf | scripts/protext_status.py:101-134 | An existing handoff is present. Its status is UNKNOWN, FRESH, AGING or STALE. It has an updated stamp exactly when it has an age. |
| Status.HandoffStatusOf | scripts/protext_status.py:87-134 | A missing handoff gives exists=False, UNKNOWN and no age. A file is parsed. A directory raises. |
| Status.StatusFromAge | scripts/protext_status.py:106-125 | Without a recognised `Status:` word, a handoff with a readable stamp is FRESH, AGING or STALE by its age, and UNKNOWN without one. |
| Status.StatusWordOverrides | scripts/protext_status.py:128-132 | The first `Status:` word, upper-cased, wins when it is FRESH, AGING or STALE, whether or not a stamp was read. The stamp and the age stay as the stamp gave them. |
| Status.ParseHandoffStatus | scripts/protext_status.py:87-134 | Filling the result dict field by field gives `HandoffStatusOf`. |
| RoundTrip.FreshIsWritable | scripts/init_protext.py:267-299 | A project with no PROTEXT.md and no `.protext` is writable for every tier. |
| RoundTrip.ScaffoldedTier | scripts/protext_status.py:71-84 | Scaffolding a fresh project for a tier leaves files that `detect_tier` reports as that tier. |
| RoundTrip.FreshInitSucceeds | scripts/init_protext.py:233-309 | On a directory without earlier artifacts and with a readable or absent CLAUDE.md, `init_protext` returns True. |
| RoundTrip.FreshInitReportsTier | scripts/protext_status.py:71-84 | After a fresh `init_protext` with tier T, `detect_tier` returns T ("beginner" for a name other than the two upper tiers). |
| RoundTrip.ScaffoldedScopes | scripts/init_protext.py:292-299 | After an advanced scaffold of a fresh project, `scopes` holds exactly the scope files. |
| RoundTrip.FreshAdvancedInitHasThreeScopes | scripts/protext_status.py:152-159 | After a fresh advanced `init_protext`, `count_scopes` returns 3. |
| RoundTrip.DefaultScopeNames | scripts/init_protext.py:226-230 | The default scopes give the three distinct file names `ops.md`, `dev.md` and `security.md`. |
| RoundTrip.HandoffStampFound | scripts/protext_status.py:106-109 | The first `Updated:` stamp of a generated handoff is the time it was written with. |
| RoundTrip.HandoffWordFound | scripts/protext_status.py:128 | The first `Status:` word of a generated handoff is FRESH. |
| RoundTrip.GeneratedHandoffReadsFresh | scripts/init_protext.py:182-186 | A handoff written at `now` reads as FRESH at any age. Its stamp is `now` whenever the clock can read it. |
| RoundTrip.FreshInitHandoffIsFresh | scripts/protext_status.py:87-134 | After a fresh `init_protext` at an upper tier, `parse_handoff_status` reads the new handoff as FRESH. |

## Left out

- PyYAML: `yaml.safe_load` is a foreign library. `load_yaml` is modelled as the fallback reader `parse_yaml_simple`, which is what runs when PyYAML is not installed.
- Purpose and service-table regular expressions: their matches are opaque inputs, and the model keeps only the stripping and the caps of 200 and 5. The key-path pattern and the title pattern are modelled.
- Unordered outputs: the order of `glob("*.md")` over `docs/` and the iteration order of the key-path `set` are inputs. They are constrained to list the right elements once each.
- Clock: `datetime.now`, `strftime` and `fromisoformat` are left out. The date and time stamps are inputs, and the status reader gets a function from a stamp to an age in whole seconds, or nothing where `fromisoformat` raises.
- Floating point: `age_hours`, `format_age` and the usage percentage are left out; ages are whole seconds, with the thresholds 86400 and 172800.
- Console and process plumbing: `print`, `input` (the answer is an input), `argparse`, `main`, `sys.exit`, `status_color`, `print_status` and file modification times are left out.
- Character classes: `str.lower`, `str.upper`, `str.title`, `\w` and `\d` are modelled on ASCII only. Whitespace for `strip` and `\s` is Python's list of whitespace code points.
- Templates.EscapeChar: `repr` escapes every character Python does not count as printable. The model escapes only quotes, the backslash, characters below U+0020 and U+007F, so a docs file name holding U+00A0 is printed raw where Python prints `\xa0`.
- Text.ParseInt: `int()` accepts every Unicode decimal digit, so `５` (U+FF15) reads as 5 in Python. The model accepts only `0`-`9`, and such a budget falls back to 2000.
- Fs.FsState.Read: `files` holds each file's text as `read_text` returns it, already decoded and with `\r\n` and a lone `\r` turned into `\n`. The decoding and that translation are not modelled, and neither is `UnicodeDecodeError` on bytes that do not decode.
- Filesystem failures other than a path's kind: permissions, a full disk and symbolic links are not modelled. The model raises only where a path is, or is not, a directory.
- Template bodies: the texts of PROTEXT.md, the configuration, the handoff and the scope files are constants. The status side reads PROTEXT.md by length, and the handoff by its header line.
- Status.CountExtractions: the count for a generated index with extractions is not derived. The fallback reader also counts the nested `source`, `triggers`, `summary` and `tokens` keys of the entries, and no lemma states that count.
- Fs.FsState.Apply: `write_text` encodes with the locale's encoding and writes `\n` as `os.linesep`. The model stores text unchanged, so it assumes an encoding that can represent every character (UTF-8, as on POSIX) and `\n` line endings. Under cp1252, the `→` in PROTEXT.md makes the first write raise `UnicodeEncodeError` after creating an empty file; `RoundTrip.FreshInitSucceeds` does not cover that case.
- Initializer.InitSpec: the tier is always an explicit argument. The default `tier="advanced"` of `init_protext` (scripts/init_protext.py:233) corresponds to passing "advanced".
- Status.ActiveScope: what the generated configuration reads back as (`ops`, and the budget 2000) is not derived from its text.
