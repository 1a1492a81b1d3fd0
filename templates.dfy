/** The texts `init_protext.py` writes: PROTEXT.md, the handoff, the
    configuration, the extraction index and the scope files. */
module Templates {
  import opened Options
  import opened Text
  import opened Extractor

  const IdentityShown := 200
  const IdentityKept := 197

  /** The identity line of PROTEXT.md: the extracted identity, or
      "Project at <directory name>" when it is empty; a text longer than 200
      characters is cut to 197 and marked with "...". */
  function RenderIdentity(dirName: string, identity: string): (r: string)
    ensures |r| <= IdentityShown
    ensures identity != "" && |identity| <= IdentityShown ==> r == identity
    ensures identity == "" && |dirName| <= IdentityShown - 11 ==> r == "Project at " + dirName
    ensures var candidate := if identity != "" then identity else "Project at " + dirName;
      |candidate| > IdentityShown ==>
        |r| == IdentityShown && r == candidate[..IdentityKept] + "..."
  {
    var candidate := if identity != "" then identity else "Project at " + dirName;
    if |candidate| > IdentityShown then candidate[..IdentityKept] + "..." else candidate
  }

  /** An identity extracted from CLAUDE.md is already at most 200 characters,
      so PROTEXT.md shows it unchanged: it is never cut twice. */
  lemma ExtractedIdentityShownUnchanged(dirName: string, content: Option<string>, m: ClaudeMatches)
    requires content.Some? ==> Enumerates(m.keyPathOrder, PathSpans(content.value))
    requires ExtractProjectInfo(content, m).identity != ""
    ensures RenderIdentity(dirName, ExtractProjectInfo(content, m).identity)
      == ExtractProjectInfo(content, m).identity
  {
  }

  /** `create_protext_md`; `today` is the date as `%Y-%m-%d`. */
  function ProtextMdText(dirName: string, info: ProjectInfo, today: string): string {
    ProtextMdHead(info) + ProtextMdBody(dirName, info, today) + ProtextMdRest
  }

  /** The title line's beginning. */
  function ProtextMdHead(info: ProjectInfo): string {
    "# Protext: " + info.name
  }

  /** From the end of the name to the line after the identity. */
  function ProtextMdBody(dirName: string, info: ProjectInfo, today: string): string {
    "\n\n> Generated: " + today + ProtextMdMiddle + RenderIdentity(dirName, info.identity) + "\n"
  }

  /** PROTEXT.md opens with the project's name and closes with the fixed sections. */
  lemma ProtextMdFrame(dirName: string, info: ProjectInfo, today: string)
    ensures StartsWith(ProtextMdText(dirName, info, today), "# Protext: " + info.name)
    ensures EndsWith(ProtextMdText(dirName, info, today), ProtextMdRest)
  {
    PiecesAround(ProtextMdHead(info), ProtextMdBody(dirName, info, today), ProtextMdRest);
  }

  /** The text between the generation date and the identity. */
  const ProtextMdMiddle: string :=
    " | Scope: ops | Tokens: ~400\n"
    + "\n"
    + "## Identity\n"
    + "\n"

  /** The part of PROTEXT.md after the identity, the same for every project. */
  const ProtextMdRest: string :=
    "\n"
    + "## Current State\n"
    + "\n"
    + "Active: Initial setup | Blocked: None | Recent: Protext initialized\n"
    + "\n"
    + "## Hot Context\n"
    + "\n"
    + "- Protext just initialized - review and customize\n"
    + "- Check `.protext/index.yaml` for extraction triggers\n"
    + "- Update scope files in `.protext/scopes/`\n"
    + "\n"
    + "## Scope Signals\n"
    + "\n"
    + "- `@ops` \U{2192} .protext/scopes/ops.md\n"
    + "- `@dev` \U{2192} .protext/scopes/dev.md\n"
    + "- `@security` \U{2192} .protext/scopes/security.md\n"
    + "\n"
    + "## Handoff\n"
    + "\n"
    + "Last: Protext initialized | Next: Customize hot context | Caution: Review auto-generated content\n"

  /** `create_config_yaml`. */
  const ConfigYaml: string :=
    "# Protext Configuration\n"
    + "\n"
    + "# Extraction behavior\n"
    + "extraction_mode: suggest  # suggest | auto | confirm\n"
    + "token_budget: 2000        # Max tokens per session\n"
    + "\n"
    + "# Handoff settings\n"
    + "handoff_ttl_hours: 48     # Time-to-live before staleness warning\n"
    + "\n"
    + "# Active scope (updated by protext scope command)\n"
    + "active_scope: ops\n"
    + "\n"
    + "# Feature flags\n"
    + "features:\n"
    + "  auto_handoff_capture: true\n"
    + "  token_warnings: true\n"
    + "  scope_switching: true\n"

  /** The second line of the handoff; `now` is the time as `%Y-%m-%dT%H:%M`. */
  function HandoffStatusLine(now: string): string {
    "> Updated: " + now + " | TTL: 48h | Status: FRESH\n"
  }

  const HandoffTitle := "# Session Handoff\n"

  const HandoffBody: string :=
    "\n"
    + "## Last Session\n"
    + "**Completed:**\n"
    + "- Protext initialization\n"
    + "\n"
    + "**In Progress:**\n"
    + "- None\n"
    + "\n"
    + "**Deferred:**\n"
    + "- None\n"
    + "\n"
    + "## Cautions\n"
    + "- Review auto-generated PROTEXT.md content\n"
    + "- Customize extraction triggers in index.yaml\n"
    + "\n"
    + "## Agent Notes\n"
    + "Initial protext setup. Customize scopes and hot context for your workflow.\n"

  /** `create_handoff_md`. */
  function HandoffMd(now: string): string {
    HandoffTitle + HandoffStatusLine(now) + HandoffBody
  }

  /** `create_scope_file`: the heading carries the name in title case. */
  function ScopeFile(scopeName: string, focus: string): string {
    "# Scope: " + Title(scopeName) + "\n"
    + "\n"
    + "## Focus\n"
    + focus + "\n"
    + "\n"
    + "## Key Resources\n"
    + "- [Add key paths and resources]\n"
    + "\n"
    + "## Current Priorities\n"
    + "1. [Define priorities]\n"
    + "2. [Add more as needed]\n"
    + "\n"
    + "## Cautions\n"
    + "- [Add scope-specific warnings]\n"
  }

  /** `SCOPE_DEFAULTS`, in the dict's insertion order. */
  const ScopeDefaults: seq<(string, string)> := [
    ("ops", "Infrastructure management, service health, deployment, monitoring."),
    ("dev", "Development workflow, code patterns, testing, debugging."),
    ("security", "Authentication, secrets management, vulnerabilities, access control.")
  ]

  // ---- create_index_yaml ----

  /** The trigger lists for the usual documentation names. */
  const DefaultTriggers: map<string, seq<string>> := map[
    "network" := ["dns", "ip", "tailscale", "mesh", "routing", "network"],
    "services" := ["docker", "container", "service", "port", "compose"],
    "secrets" := ["secret", "credential", "infisical", "auth", "password"],
    "architecture" := ["design", "diagram", "pattern", "architecture"],
    "system" := ["hardware", "storage", "resources", "memory", "cpu"],
    "router" := ["mikrotik", "gateway", "dhcp", "firewall", "forward"]
  ]

  /** `default_triggers.get(name, [name])`. */
  function TriggersFor(name: string): (triggers: seq<string>)
    ensures name in DefaultTriggers ==> triggers == DefaultTriggers[name]
    ensures name !in DefaultTriggers ==> triggers == [name]
  {
    if name in DefaultTriggers then DefaultTriggers[name] else [name]
  }

  function HexDigit(d: nat): char
    requires d < 16
  {
    if d < 10 then ('0' as int + d) as char else ('a' as int + d - 10) as char
  }

  /** One character inside Python's `repr` of a string quoted with `quote`. */
  function EscapeChar(c: char, quote: char): string {
    if c == quote || c == '\\' then ['\\', c]
    else if c == '\t' then "\\t"
    else if c == '\n' then "\\n"
    else if c == '\r' then "\\r"
    else if c < ' ' || c == '\U{7F}' then "\\x" + [HexDigit(c as int / 16), HexDigit(c as int % 16)]
    else [c]
  }

  function Escape(s: string, quote: char): string {
    if s == [] then "" else EscapeChar(s[0], quote) + Escape(s[1..], quote)
  }

  /** Python's `repr` of a string: single quotes unless the text holds a single
      quote and no double quote. */
  function Repr(s: string): (r: string)
    ensures |r| >= 2 && r[0] == r[|r| - 1]
    ensures r[0] == '"' <==> '\'' in s && '"' !in s
    ensures r[0] != '"' ==> r[0] == '\''
  {
    var quote := if '\'' in s && '"' !in s then '"' else '\'';
    [quote] + Escape(s, quote) + [quote]
  }

  function ReprItems(items: seq<string>): string {
    if |items| == 0 then ""
    else if |items| == 1 then Repr(items[0])
    else Repr(items[0]) + ", " + ReprItems(items[1..])
  }

  /** `str` of a list of strings, as the f-string prints it. */
  function ListRepr(items: seq<string>): (r: string)
    ensures |r| >= 2 && r[0] == '[' && r[|r| - 1] == ']'
    ensures items == [] <==> r == "[]"
  {
    "[" + ReprItems(items) + "]"
  }

  /** A text without quotes, backslashes or control characters is its own escape. */
  lemma {:induction false} EscapePlain(s: string, quote: char)
    requires forall k :: 0 <= k < |s| ==> s[k] != quote && s[k] != '\\' && ' ' <= s[k] < '\U{7F}'
    ensures Escape(s, quote) == s
  {
    if s != [] {
      EscapePlain(s[1..], quote);
    }
  }

  /** Such a text is printed between single quotes, as the trigger words are. */
  lemma ReprOfPlain(s: string)
    requires forall k :: 0 <= k < |s| ==> s[k] != '\'' && s[k] != '"' && s[k] != '\\' && ' ' <= s[k] < '\U{7F}'
    ensures Repr(s) == "'" + s + "'"
  {
    EscapePlain(s, '\'');
  }

  const IndexHeader: string :=
    "# Protext Extraction Index\n"
    + "# Max 20 extractions. Triggers are keyword hints (suggest-mode default).\n"
    + "\n"
    + "extractions:\n"

  const ExampleBlock: string :=
    "\n"
    + "  # Example extraction (uncomment and customize):\n"
    + "  # docs:\n"
    + "  #   source: docs/README.md\n"
    + "  #   triggers: [documentation, readme, overview]\n"
    + "  #   summary: \"Project documentation\"\n"
    + "  #   tokens: ~500\n"

  /** The block of index.yaml describing one extraction. */
  function IndexEntry(e: Extraction): string {
    "\n"
    + "  " + e.name + ":\n"
    + "    source: " + e.source + "\n"
    + "    triggers: " + ListRepr(TriggersFor(e.name)) + "\n"
    + "    summary: \"" + e.summary + "\"\n"
    + "    tokens: ~500\n"
  }

  /** The blocks of all extractions, in order. */
  function IndexEntries(exts: seq<Extraction>): string {
    if |exts| == 0 then "" else IndexEntries(exts[..|exts| - 1]) + IndexEntry(exts[|exts| - 1])
  }

  /** The whole of index.yaml: the header, a block per extraction, and the
      commented example only when there is no extraction. */
  function IndexYaml(exts: seq<Extraction>): string {
    IndexHeader + IndexEntries(exts) + (if |exts| == 0 then ExampleBlock else "")
  }

  /** index.yaml opens with its header, and closes with the commented example
      when there is no extraction. */
  lemma IndexYamlFrame(exts: seq<Extraction>)
    ensures StartsWith(IndexYaml(exts), IndexHeader)
    ensures exts == [] ==> EndsWith(IndexYaml(exts), ExampleBlock)
  {
    PiecesAround(IndexHeader, IndexEntries(exts), if |exts| == 0 then ExampleBlock else "");
  }

  /** `create_index_yaml`, which builds the text by appending to it. */
  method CreateIndexYaml(extractions: seq<Extraction>) returns (content: string)
    ensures content == IndexYaml(extractions)
    ensures StartsWith(content, IndexHeader)
  {
    content := IndexHeader;
    var i := 0;
    while i < |extractions|
      invariant 0 <= i <= |extractions|
      invariant content == IndexHeader + IndexEntries(extractions[..i])
    {
      ghost var before := IndexEntries(extractions[..i]);
      assert extractions[..i + 1][..i] == extractions[..i];
      assert IndexEntries(extractions[..i + 1]) == before + IndexEntry(extractions[i]);
      AppendAssoc(IndexHeader, before, IndexEntry(extractions[i]));
      content := content + IndexEntry(extractions[i]);
      i := i + 1;
    }
    assert extractions[..i] == extractions;
    if |extractions| == 0 {
      content := content + ExampleBlock;
    }
  }

  const EntryTail := "\"\n    tokens: ~500\n"

  lemma IndexEntryTail(e: Extraction)
    ensures EndsWith(IndexEntry(e), EntryTail)
  {
  }

  /** index.yaml ends with the commented example exactly when no documentation
      was found. */
  lemma ExampleOnlyWhenEmpty(exts: seq<Extraction>)
    ensures EndsWith(IndexYaml(exts), ExampleBlock) <==> |exts| == 0
  {
    var doc := IndexYaml(exts);
    if |exts| == 0 {
      assert doc == (IndexHeader + IndexEntries(exts)) + ExampleBlock;
      EndsWithAppend(IndexHeader + IndexEntries(exts), ExampleBlock, ExampleBlock);
    } else {
      var last := exts[|exts| - 1];
      IndexEntryTail(last);
      assert doc == (IndexHeader + IndexEntries(exts[..|exts| - 1])) + IndexEntry(last);
      EndsWithAppend(IndexHeader + IndexEntries(exts[..|exts| - 1]), IndexEntry(last), EntryTail);
      if EndsWith(doc, ExampleBlock) {
        EndsWithBoth(doc, EntryTail, ExampleBlock);
        ExampleBlockTail();
      }
    }
  }

  /** The commented example does not end like an extraction's block. */
  lemma ExampleBlockTail()
    ensures !EndsWith(ExampleBlock, EntryTail)
  {
    assert ExampleBlock[|ExampleBlock| - |EntryTail|] == ' ';
  }
}
