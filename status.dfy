/** `protext_status`: what the status script derives from the files an
    initialization leaves. Every derivation reads the filesystem and changes
    nothing; a read of a path that is a directory raises, as `read_text` does. */
module Status {
  import opened Options
  import opened Text
  import opened Fs
  import opened Layout
  import opened SimpleYaml

  // ---- detect_tier ----

  /** `detect_tier`: the first of PROTEXT.md, `.protext` and `index.yaml` that
      is missing decides. */
  function DetectTier(st: FsState): (tier: string) {
    if !st.Exists(ProtextMd) then "none"
    else if !st.Exists(ProtextDir) then "beginner"
    else if !st.Exists(IndexPath) then "intermediate"
    else "advanced"
  }

  /** The tier reported is one of the four, and each is reported exactly when
      its files are present and the next tier's are not. */
  lemma TierCases(st: FsState)
    ensures DetectTier(st) == "none" <==> !st.Exists(ProtextMd)
    ensures DetectTier(st) == "beginner" <==> st.Exists(ProtextMd) && !st.Exists(ProtextDir)
    ensures DetectTier(st) == "intermediate" <==>
      st.Exists(ProtextMd) && st.Exists(ProtextDir) && !st.Exists(IndexPath)
    ensures DetectTier(st) == "advanced" <==>
      st.Exists(ProtextMd) && st.Exists(ProtextDir) && st.Exists(IndexPath)
  {
  }

  /** The tier depends on the presence of the three paths only: the handoff,
      and what any file holds, play no part. */
  lemma TierIgnoresHandoff(a: FsState, b: FsState)
    requires a.Exists(ProtextMd) == b.Exists(ProtextMd)
    requires a.Exists(ProtextDir) == b.Exists(ProtextDir)
    requires a.Exists(IndexPath) == b.Exists(IndexPath)
    ensures DetectTier(a) == DetectTier(b)
  {
  }

  /** Writing, rewriting or removing only the handoff leaves the tier as it was. */
  lemma HandoffChangeKeepsTier(st: FsState, text: string)
    ensures DetectTier(FsState(st.files[HandoffPath := text], st.dirs)) == DetectTier(st)
    ensures DetectTier(FsState(st.files - {HandoffPath}, st.dirs)) == DetectTier(st)
  {
    TierIgnoresHandoff(FsState(st.files[HandoffPath := text], st.dirs), st);
    TierIgnoresHandoff(FsState(st.files - {HandoffPath}, st.dirs), st);
  }

  // ---- load_yaml and the configuration ----

  /** `load_yaml` with the fallback reader: an absent file is an empty mapping. */
  function LoadYaml(st: FsState, p: Path): (r: Result<map<string, Value>>)
    ensures !st.Exists(p) ==> r == Ok(map[])
    ensures p in st.files ==> r == Ok(ParseYaml(st.files[p]))
    ensures st.Exists(p) && p !in st.files ==> r == Err(IsADirectory(p))
  {
    if !st.Exists(p) then Ok(map[])
    else match st.Read(p)
      case Ok(content) => Ok(ParseYaml(content))
      case Err(e) => Err(e)
  }

  /** `count_extractions`: the keys of the `extractions` mapping, and 0 when the
      index is absent or `extractions` is missing or a string. */
  function CountExtractions(st: FsState): (r: Result<nat>)
    ensures !st.Exists(IndexPath) ==> r == Ok(0)
  {
    if !st.Exists(IndexPath) then Ok(0)
    else match LoadYaml(st, IndexPath)
      case Err(e) => Err(e)
      case Ok(data) =>
        Ok(if "extractions" in data && data["extractions"].Section? then |data["extractions"].entries| else 0)
  }

  /** The index's last top-level `extractions` line decides whether anything
      is counted: a value there makes the count 0, whatever follows it. */
  lemma ValuedExtractionsCountZero(st: FsState)
    requires IndexPath in st.files
    requires var lines := Classified(Split(st.files[IndexPath], '\n'));
      LastTop(lines, "extractions").Some? ==> LastTop(lines, "extractions").value != ""
    ensures CountExtractions(st) == Ok(0)
  {
    LastTopDecides(Classified(Split(st.files[IndexPath], '\n')), "extractions");
  }

  /** When the last top-level `extractions` line has an empty value, the
      count is the number of keys in the mapping it opened. */
  lemma SectionExtractionsCounted(st: FsState)
    requires IndexPath in st.files
    requires LastTop(Classified(Split(st.files[IndexPath], '\n')), "extractions") == Some("")
    ensures var data := ParseYaml(st.files[IndexPath]);
      && "extractions" in data && data["extractions"].Section?
      && CountExtractions(st) == Ok(|data["extractions"].entries|)
  {
    LastTopDecides(Classified(Split(st.files[IndexPath], '\n')), "extractions");
  }

  /** `count_scopes`: the `*.md` entries of `scopes`, 0 when it is absent. */
  function CountScopes(st: FsState): (n: nat)
    ensures !st.Exists(ScopesDir) ==> n == 0
    ensures n == |MarkdownIn(st, ScopesDir)|
  {
    if !st.Exists(ScopesDir) then 0 else |MarkdownIn(st, ScopesDir)|
  }

  /** `get_active_scope`: "none" without a configuration, "ops" when the key is
      missing, and otherwise whatever the key holds, a mapping included. */
  function ActiveScope(st: FsState): (r: Result<Value>)
    ensures !st.Exists(ConfigPath) ==> r == Ok(Scalar("none"))
    ensures ConfigPath in st.files && "active_scope" !in ParseYaml(st.files[ConfigPath]) ==> r == Ok(Scalar("ops"))
    ensures ConfigPath in st.files && "active_scope" in ParseYaml(st.files[ConfigPath]) ==>
      r == Ok(ParseYaml(st.files[ConfigPath])["active_scope"])
    ensures ConfigPath in st.dirs && ConfigPath !in st.files ==> r == Err(IsADirectory(ConfigPath))
  {
    if !st.Exists(ConfigPath) then Ok(Scalar("none"))
    else match LoadYaml(st, ConfigPath)
      case Err(e) => Err(e)
      case Ok(data) => Ok(if "active_scope" in data then data["active_scope"] else Scalar("ops"))
  }

  /** The budget used whenever none can be read. */
  const DefaultBudget := 2000

  /** `int(data.get("token_budget", 2000))`, with 2000 where `int` raises. */
  function BudgetOf(data: map<string, Value>): (budget: int)
    ensures budget != DefaultBudget ==>
      "token_budget" in data && data["token_budget"].Scalar? && ParseInt(data["token_budget"].text) == Some(budget)
    ensures "token_budget" in data && data["token_budget"].Scalar? && ParseInt(data["token_budget"].text).Some? ==>
      budget == ParseInt(data["token_budget"].text).value
  {
    if "token_budget" !in data then DefaultBudget
    else match data["token_budget"]
      case Scalar(text) => (match ParseInt(text) case Some(n) => n case None => DefaultBudget)
      case Section(_) => DefaultBudget
  }

  /** `get_token_budget`. */
  function TokenBudget(st: FsState): (r: Result<int>)
    ensures !st.Exists(ConfigPath) ==> r == Ok(DefaultBudget)
    ensures ConfigPath in st.files ==> r == Ok(BudgetOf(ParseYaml(st.files[ConfigPath])))
    ensures ConfigPath in st.dirs && ConfigPath !in st.files ==> r == Err(IsADirectory(ConfigPath))
  {
    if !st.Exists(ConfigPath) then Ok(DefaultBudget)
    else match LoadYaml(st, ConfigPath)
      case Err(e) => Err(e)
      case Ok(data) => Ok(BudgetOf(data))
  }

  /** The budget falls back to 2000 when the key is missing, holds a mapping,
      or holds text that `int` rejects. */
  lemma BudgetDefaults(data: map<string, Value>)
    requires "token_budget" !in data || data["token_budget"].Section?
      || ParseInt(data["token_budget"].text).None?
    ensures BudgetOf(data) == DefaultBudget
  {
  }

  /** A budget written as `str(n)` is read back as `n`. */
  lemma BudgetReadsBack(data: map<string, Value>, n: int)
    requires "token_budget" in data && data["token_budget"] == Scalar(IntToString(n))
    ensures BudgetOf(data) == n
  {
    ParseIntOfIntToString(n);
  }

  /** The fallback reader keeps an inline comment as part of the value, so a
      budget followed by `# ...` is not an integer and the default is used. */
  lemma CommentedBudgetIsDefault(data: map<string, Value>)
    requires "token_budget" in data && data["token_budget"].Scalar?
    requires '#' in data["token_budget"].text
    ensures BudgetOf(data) == DefaultBudget
  {
    var text := data["token_budget"].text;
    var i :| 0 <= i < |text| && text[i] == '#';
    ParseIntRejects(text, i);
  }

  // ---- estimate_protext_tokens ----

  /** `estimate_protext_tokens`: a quarter of PROTEXT.md's length, rounded down,
      and 0 when it is absent. */
  function EstimateTokens(st: FsState): (r: Result<nat>)
    ensures !st.Exists(ProtextMd) ==> r == Ok(0)
    ensures ProtextMd in st.files ==>
      r.Ok? && 4 * r.value <= |st.files[ProtextMd]| < 4 * r.value + 4
    ensures st.Exists(ProtextMd) && ProtextMd !in st.files ==> r == Err(IsADirectory(ProtextMd))
  {
    if !st.Exists(ProtextMd) then Ok(0)
    else match st.Read(ProtextMd)
      case Ok(content) => Ok(|content| / 4)
      case Err(e) => Err(e)
  }

  // ---- parse_handoff_status ----

  /** The result dict of `parse_handoff_status`; the age is in whole seconds
      and `updated` is the matched time stamp. */
  datatype HandoffStatus = HandoffStatus(
    present: bool,
    updated: Option<string>,
    status: string,
    ageSeconds: Option<int>)

  const Unknown := HandoffStatus(false, None, "UNKNOWN", None)

  /** `\d{4}-\d{2}-\d{2}T\d{2}:\d{2}`. */
  predicate IsStamp(t: string) {
    && |t| == 16
    && (forall k :: k in {0, 1, 2, 3, 5, 6, 8, 9, 11, 12, 14, 15} ==> IsDigit(t[k]))
    && t[4] == '-' && t[7] == '-' && t[10] == 'T' && t[13] == ':'
  }

  /** `Updated:\s*(\d{4}-\d{2}-\d{2}T\d{2}:\d{2})` matched at `i`: the stamp. */
  function UpdatedAt(s: string, i: nat): (stamp: Option<string>)
    ensures stamp.Some? ==> IsStamp(stamp.value) && i + 8 <= |s| && s[i..i + 8] == "Updated:"
  {
    if i <= |s| && StartsWith(s[i..], "Updated:") then
      var j := SkipSpace(s, i + 8);
      if j + 16 <= |s| && IsStamp(s[j..j + 16]) then Some(s[j..j + 16]) else None
    else None
  }

  /** `Updated:` at `i`, then whitespace up to a well-formed stamp, always
      matches, and the group is that stamp. */
  lemma UpdatedAtFindsStamp(s: string, i: nat, j: nat)
    requires i + 8 <= j && j + 16 <= |s| && s[i..i + 8] == "Updated:"
    requires forall k :: i + 8 <= k < j ==> IsSpace(s[k])
    requires IsStamp(s[j..j + 16])
    ensures UpdatedAt(s, i) == Some(s[j..j + 16])
  {
    assert s[i..][..8] == s[i..i + 8];
    assert s[j] == s[j..j + 16][0];
    assert SkipSpace(s, i + 8) == j;
  }

  /** Where the whitespace after `Updated:` ends, the stamp is the next 16
      characters when they are well-formed, and there is no match at `i`
      otherwise. */
  lemma UpdatedAtGroup(s: string, i: nat, j: nat)
    requires i + 8 <= j <= |s| && s[i..i + 8] == "Updated:"
    requires forall k :: i + 8 <= k < j ==> IsSpace(s[k])
    requires j == |s| || !IsSpace(s[j])
    ensures UpdatedAt(s, i) == if j + 16 <= |s| && IsStamp(s[j..j + 16]) then Some(s[j..j + 16]) else None
  {
    assert s[i..][..8] == s[i..i + 8];
    assert SkipSpace(s, i + 8) == j;
  }

  /** `Status:\s*(\w+)` matched at `i`: the word. */
  function StatusWordAt(s: string, i: nat): (word: Option<string>)
    ensures word.Some? ==> word.value != "" && forall k :: 0 <= k < |word.value| ==> IsWordChar(word.value[k])
    ensures word.Some? ==> i + 7 <= |s| && s[i..i + 7] == "Status:"
  {
    if i <= |s| && StartsWith(s[i..], "Status:") then
      var j := SkipSpace(s, i + 7);
      var k := SkipWord(s, j);
      if j < k then Some(s[j..k]) else None
    else None
  }

  /** Where the whitespace after `Status:` ends at `j` and the run of word
      characters from `j` ends at `e`, the word is that whole run, and there is
      no match at `i` when the run is empty. */
  lemma StatusWordGroup(s: string, i: nat, j: nat, e: nat)
    requires i + 7 <= j <= e <= |s| && s[i..i + 7] == "Status:"
    requires forall k :: i + 7 <= k < j ==> IsSpace(s[k])
    requires j == |s| || !IsSpace(s[j])
    requires forall k :: j <= k < e ==> IsWordChar(s[k])
    requires e == |s| || !IsWordChar(s[e])
    ensures StatusWordAt(s, i) == if j < e then Some(s[j..e]) else None
  {
    assert s[i..][..7] == s[i..i + 7];
    assert SkipSpace(s, i + 7) == j;
    assert SkipWord(s, j) == e;
  }

  /** The status a known age gives: under 24 hours FRESH, under 48 AGING. */
  function AgeStatus(age: int): (status: string)
    ensures status == "FRESH" <==> age < 86400
    ensures status == "AGING" <==> 86400 <= age < 172800
    ensures status == "STALE" <==> 172800 <= age
  {
    if age < 86400 then "FRESH" else if age < 172800 then "AGING" else "STALE"
  }

  /** FRESH, AGING and STALE in the order a handoff goes through them. */
  function Rank(status: string): nat {
    if status == "FRESH" then 0 else if status == "AGING" then 1 else 2
  }

  /** An older handoff is never reported fresher. */
  lemma AgeStatusMonotone(a: int, b: int)
    requires a <= b
    ensures Rank(AgeStatus(a)) <= Rank(AgeStatus(b))
  {
  }

  predicate KnownStatus(s: string) {
    s == "FRESH" || s == "AGING" || s == "STALE"
  }

  /** `parse_handoff_status` on an existing handoff holding `content`. The
      clock gives the age of a stamp, or nothing where `fromisoformat` raises. */
  /** The result before the `Status:` word is looked at: the stamp, its age
      and the status that age gives, when the stamp is found and parses. */
  function TimedStatus(content: string, ageOf: string -> Option<int>): HandoffStatus {
    match Search(content, UpdatedAt)
    case None => Unknown.(present := true)
    case Some(stamp) =>
      match ageOf(stamp)
      case None => Unknown.(present := true)
      case Some(age) => HandoffStatus(true, Some(stamp), AgeStatus(age), Some(age))
  }

  function HandoffOf(content: string, ageOf: string -> Option<int>): (h: HandoffStatus)
    ensures h.present
    ensures h.status == "UNKNOWN" || KnownStatus(h.status)
    ensures h.updated.Some? <==> h.ageSeconds.Some?
  {
    var timed := TimedStatus(content, ageOf);
    match Search(content, StatusWordAt)
    case Some(word) => if KnownStatus(Upper(word)) then timed.(status := Upper(word)) else timed
    case None => timed
  }

  /** `parse_handoff_status` on the project. */
  function HandoffStatusOf(st: FsState, ageOf: string -> Option<int>): (r: Result<HandoffStatus>)
    ensures !st.Exists(HandoffPath) ==> r == Ok(Unknown)
    ensures HandoffPath in st.files ==> r == Ok(HandoffOf(st.files[HandoffPath], ageOf))
    ensures st.Exists(HandoffPath) && HandoffPath !in st.files ==> r == Err(IsADirectory(HandoffPath))
  {
    if !st.Exists(HandoffPath) then Ok(Unknown)
    else match st.Read(HandoffPath)
      case Ok(content) => Ok(HandoffOf(content, ageOf))
      case Err(e) => Err(e)
  }

  /** Without a usable `Status:` word, a handoff with a stamp the clock can
      read is FRESH, AGING or STALE by its age, and UNKNOWN without one. */
  lemma StatusFromAge(content: string, ageOf: string -> Option<int>)
    requires Search(content, StatusWordAt).None? || !KnownStatus(Upper(Search(content, StatusWordAt).value))
    ensures var stamp := Search(content, UpdatedAt);
      if stamp.Some? && ageOf(stamp.value).Some? then
        HandoffOf(content, ageOf) == HandoffStatus(true, stamp, AgeStatus(ageOf(stamp.value).value), ageOf(stamp.value))
      else HandoffOf(content, ageOf) == HandoffStatus(true, None, "UNKNOWN", None)
  {
  }

  /** The first `Status:` word, upper-cased, wins when it is FRESH, AGING or
      STALE, whether or not a time stamp was read. */
  lemma StatusWordOverrides(content: string, ageOf: string -> Option<int>)
    requires Search(content, StatusWordAt).Some?
    requires KnownStatus(Upper(Search(content, StatusWordAt).value))
    ensures HandoffOf(content, ageOf).status == Upper(Search(content, StatusWordAt).value)
    ensures HandoffOf(content, ageOf).updated == TimedStatus(content, ageOf).updated
    ensures HandoffOf(content, ageOf).ageSeconds == TimedStatus(content, ageOf).ageSeconds
  {
  }

  /** `parse_handoff_status`, which fills in its result dict field by field. */
  method ParseHandoffStatus(st: FsState, ageOf: string -> Option<int>) returns (r: Result<HandoffStatus>)
    ensures r == HandoffStatusOf(st, ageOf)
  {
    var result := HandoffStatus(false, None, "UNKNOWN", None);
    if !st.Exists(HandoffPath) {
      return Ok(result);
    }
    result := result.(present := true);
    var read := st.Read(HandoffPath);
    if read.Err? {
      return Err(read.error);
    }
    var content := read.value;
    assert HandoffStatusOf(st, ageOf) == Ok(HandoffOf(content, ageOf));
    var headerMatch := Search(content, UpdatedAt);
    if headerMatch.Some? {
      var age := ageOf(headerMatch.value);
      if age.Some? {
        result := result.(updated := headerMatch);
        result := result.(ageSeconds := age);
        if age.value < 86400 {
          result := result.(status := "FRESH");
        } else if age.value < 172800 {
          result := result.(status := "AGING");
        } else {
          result := result.(status := "STALE");
        }
      }
    }
    assert result == TimedStatus(content, ageOf);
    var statusMatch := Search(content, StatusWordAt);
    if statusMatch.Some? {
      var explicitStatus := Upper(statusMatch.value);
      if explicitStatus == "FRESH" || explicitStatus == "AGING" || explicitStatus == "STALE" {
        result := result.(status := explicitStatus);
      }
    }
    assert result == HandoffOf(content, ageOf);
    r := Ok(result);
  }
}
