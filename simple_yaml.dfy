/** `parse_yaml_simple`, the line-by-line reader the status script falls back
    on: top-level `key: value` pairs, and one level of `  key: value` pairs
    under a key whose value is empty. */
module SimpleYaml {
  import opened Options
  import opened Text

  /** What a key maps to: a stripped string, or the mapping that a key with an
      empty value opens. */
  datatype Value = Scalar(text: string) | Section(entries: map<string, string>)

  /** The loop's state between two lines: the `result` dict and `current_section`. */
  datatype Parser = Parser(result: map<string, Value>, current: Option<string>)

  /** `current_section`, once set, is a key of `result`, so that
      `result[current_section]` never raises `KeyError`. */
  predicate Tracks(p: Parser) {
    p.current.Some? ==> p.current.value in p.result
  }

  /** A blank line or a comment line. */
  predicate Skipped(line: string) {
    Strip(line) == "" || StartsWith(Strip(line), "#")
  }

  /** A line that does not begin with a space and holds a colon. */
  predicate TopLevel(line: string) {
    !StartsWith(line, " ") && ':' in line
  }

  /** A line that begins with two spaces and holds a colon. */
  predicate Nested(line: string) {
    StartsWith(line, "  ") && ':' in line
  }

  /** The stripped text before the first colon. */
  function KeyOf(line: string): string {
    Strip(Partition(line, ':').0)
  }

  /** The stripped text after the first colon. */
  function ValueOf(line: string): string {
    Strip(Partition(line, ':').1)
  }

  /** What one line is to the parser. Blank and comment lines, lines with no
      colon and lines indented by a single space are all `Ignored`. */
  datatype Line = Ignored | Top(key: string, value: string) | Indented(key: string, value: string)

  function Classify(line: string): Line {
    if Skipped(line) then Ignored
    else if TopLevel(line) then Top(KeyOf(line), ValueOf(line))
    else if Nested(line) then Indented(KeyOf(line), ValueOf(line))
    else Ignored
  }

  /** One iteration of the loop over the lines. An indented pair is only taken
      while `current_section` is truthy, that is set and not empty, and while
      the entry it names is still a mapping. */
  function Step(p: Parser, line: Line): (r: Parser)
    requires Tracks(p)
    ensures Tracks(r)
  {
    match line
    case Ignored => p
    case Top(key, value) =>
      if value != "" then Parser(p.result[key := Scalar(value)], p.current)
      else Parser(p.result[key := Section(map[])], Some(key))
    case Indented(key, value) =>
      if p.current.Some? && p.current.value != "" then
        match p.result[p.current.value]
        case Section(entries) => Parser(p.result[p.current.value := Section(entries[key := value])], p.current)
        case Scalar(_) => p
      else p
  }

  /** The parser after the given lines, from an empty dict and no section. */
  function ParseAll(lines: seq<Line>): (p: Parser)
    ensures Tracks(p)
    decreases |lines|
  {
    if lines == [] then Parser(map[], None)
    else Step(ParseAll(lines[..|lines| - 1]), lines[|lines| - 1])
  }

  function Classified(lines: seq<string>): seq<Line> {
    seq(|lines|, k requires 0 <= k < |lines| => Classify(lines[k]))
  }

  /** `parse_yaml_simple(content)`. */
  function ParseYaml(content: string): (data: map<string, Value>)
    ensures forall key :: key in data <==> LastTop(Classified(Split(content, '\n')), key).Some?
  {
    var lines := Classified(Split(content, '\n'));
    KeysAreTopKeys(lines);
    ParseAll(lines).result
  }

  /** One more line read is one more `Step`. */
  lemma ParseOneMore(kinds: seq<Line>, i: nat)
    requires i < |kinds|
    ensures ParseAll(kinds[..i + 1]) == Step(ParseAll(kinds[..i]), kinds[i])
  {
    assert kinds[..i + 1][..i] == kinds[..i];
  }

  /** `parse_yaml_simple`, updating `result` and `current_section` line by line. */
  method ParseYamlSimple(content: string) returns (result: map<string, Value>)
    ensures result == ParseYaml(content)
  {
    result := map[];
    var currentSection: Option<string> := None;
    var lines := Split(content, '\n');
    ghost var kinds := Classified(lines);
    var i := 0;
    while i < |lines|
      invariant 0 <= i <= |lines|
      invariant Parser(result, currentSection) == ParseAll(kinds[..i])
    {
      ghost var before := Parser(result, currentSection);
      var line := Classify(lines[i]);
      ParseOneMore(kinds, i);
      assert line == kinds[i];
      match line {
        case Ignored =>
        case Top(key, value) =>
          if value != "" {
            result := result[key := Scalar(value)];
          } else {
            result := result[key := Section(map[])];
            currentSection := Some(key);
          }
        case Indented(key, value) =>
          if currentSection.Some? && currentSection.value != "" {
            var section := result[currentSection.value];
            if section.Section? {
              result := result[currentSection.value := Section(section.entries[key := value])];
            }
          }
      }
      assert Parser(result, currentSection) == Step(before, line);
      i := i + 1;
    }
    assert kinds[..i] == kinds;
  }

  // ---- A reference reading of the same lines ----

  /** The value on the last top-level line for `key`, if there is one. */
  function LastTop(lines: seq<Line>, key: string): Option<string>
    decreases |lines|
  {
    if lines == [] then None
    else
      var line := lines[|lines| - 1];
      if line.Top? && line.key == key then Some(line.value)
      else LastTop(lines[..|lines| - 1], key)
  }

  /** The key of the last top-level line with an empty value, if there is one. */
  function LastOpened(lines: seq<Line>): Option<string>
    decreases |lines|
  {
    if lines == [] then None
    else
      var line := lines[|lines| - 1];
      if line.Top? && line.value == "" then Some(line.key)
      else LastOpened(lines[..|lines| - 1])
  }

  /** A key is in the result exactly when a top-level line names it; the last
      such line decides: a value makes it that string, an empty value a mapping. */
  lemma {:induction false} LastTopDecides(lines: seq<Line>, key: string)
    ensures key in ParseAll(lines).result <==> LastTop(lines, key).Some?
    ensures LastTop(lines, key).Some? && LastTop(lines, key).value != "" ==>
      ParseAll(lines).result[key] == Scalar(LastTop(lines, key).value)
    ensures LastTop(lines, key) == Some("") ==> ParseAll(lines).result[key].Section?
    decreases |lines|
  {
    if lines != [] {
      LastTopDecides(lines[..|lines| - 1], key);
    }
  }

  /** The keys of the result are exactly the keys of the top-level lines. */
  lemma KeysAreTopKeys(lines: seq<Line>)
    ensures forall key :: key in ParseAll(lines).result <==> LastTop(lines, key).Some?
  {
    forall key {
      LastTopDecides(lines, key);
    }
  }

  /** `current_section` is the key of the last top-level line with an empty
      value: a later key with a value does not reset it, and it is unset until
      such a line appears. */
  lemma {:induction false} CurrentIsLastOpened(lines: seq<Line>)
    ensures ParseAll(lines).current == LastOpened(lines)
    decreases |lines|
  {
    if lines != [] {
      CurrentIsLastOpened(lines[..|lines| - 1]);
    }
  }

  /** Before any section is open, or while the open one has the empty name,
      an indented line changes nothing. */
  lemma IgnoredWithoutSection(lines: seq<Line>, key: string, value: string)
    requires LastOpened(lines).None? || LastOpened(lines) == Some("")
    ensures ParseAll(lines + [Indented(key, value)]) == ParseAll(lines)
  {
    CurrentIsLastOpened(lines);
    assert (lines + [Indented(key, value)])[..|lines|] == lines;
  }

  /** An indented line goes into the open section while that entry is still a
      mapping, and is dropped once a later line has given the key a value. */
  lemma NestedIntoSection(lines: seq<Line>, key: string, value: string, section: string)
    requires LastOpened(lines) == Some(section) && section != ""
    ensures LastTop(lines, section) == Some("") ==>
      var r := ParseAll(lines).result;
      && section in r && r[section].Section?
      && ParseAll(lines + [Indented(key, value)]).result == r[section := Section(r[section].entries[key := value])]
    ensures LastTop(lines, section).Some? && LastTop(lines, section).value != "" ==>
      ParseAll(lines + [Indented(key, value)]) == ParseAll(lines)
  {
    CurrentIsLastOpened(lines);
    LastTopDecides(lines, section);
    assert (lines + [Indented(key, value)])[..|lines|] == lines;
  }

  /** Blank and comment lines are ignored. */
  lemma SkippedLinesIgnored(line: string)
    requires Strip(line) == "" || StartsWith(Strip(line), "#")
    ensures Classify(line) == Ignored
  {
  }

  /** An unindented line that is not blank or a comment is split at its first
      colon into a stripped key and a stripped value. */
  lemma TopLineSplitsAtFirstColon(before: string, after: string)
    requires ':' !in before
    requires !StartsWith(before + ":" + after, " ")
    requires !Skipped(before + ":" + after)
    ensures Classify(before + ":" + after) == Top(Strip(before), Strip(after))
  {
    PartitionAtFirst(before, after, ':');
    assert (before + ":" + after)[|before|] == ':';
  }

  /** A line indented by two spaces is split the same way, into a pair for the
      open section. */
  lemma NestedLineSplitsAtFirstColon(before: string, after: string)
    requires ':' !in before
    requires StartsWith(before, "  ")
    requires !Skipped(before + ":" + after)
    ensures Classify(before + ":" + after) == Indented(Strip(before), Strip(after))
  {
    var line := before + ":" + after;
    PartitionAtFirst(before, after, ':');
    assert line[|before|] == ':';
    StartsWithAppend(before, ":", after, "  ", " ");
  }

  /** Ignored lines can be dropped anywhere without changing the result. */
  lemma {:induction false} IgnoredIrrelevant(before: seq<Line>, after: seq<Line>)
    ensures ParseAll(before + [Ignored] + after) == ParseAll(before + after)
    decreases |after|
  {
    if after == [] {
      assert before + [Ignored] + after == before + [Ignored];
      assert (before + [Ignored])[..|before|] == before;
      assert before + after == before;
    } else {
      var init := after[..|after| - 1];
      IgnoredIrrelevant(before, init);
      assert (before + [Ignored] + after)[..|before + [Ignored] + after| - 1] == before + [Ignored] + init;
      assert (before + after)[..|before + after| - 1] == before + init;
    }
  }

  /** A section whose key is empty stays an empty mapping: `current_section`
      is then falsy and no indented line reaches it. */
  lemma {:induction false} EmptyKeySectionStaysEmpty(lines: seq<Line>)
    requires LastTop(lines, "") == Some("")
    ensures "" in ParseAll(lines).result && ParseAll(lines).result[""] == Section(map[])
    decreases |lines|
  {
    var line := lines[|lines| - 1];
    if !(line.Top? && line.key == "") {
      EmptyKeySectionStaysEmpty(lines[..|lines| - 1]);
    }
  }
}
