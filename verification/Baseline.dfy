/** The frozen-contract baseline: its text form, its parser, and the guard built on them. */
module Baseline {
  import opened Common
  import opened Ordering
  import opened PyText

  // -- Writing and reading ---------------------------------------------------------------

  function Join(lines: seq<string>): string {
    if lines == [] then "" else if |lines| == 1 then lines[0] else lines[0] + "\n" + Join(lines[1..])
  }

  function Lines(order: seq<string>, baseline: map<string, string>): seq<string>
    requires forall p | p in order :: p in baseline
  {
    seq(|order|, i requires 0 <= i < |order| => baseline[order[i]] + "  " + order[i])
  }

  function Text(order: seq<string>, baseline: map<string, string>): string
    requires forall p | p in order :: p in baseline
  {
    Join(Lines(order, baseline)) + "\n"
  }

  /** write_baseline: the text it writes. */
  method WriteBaseline(baseline: map<string, string>) returns (text: string)
    ensures exists order :: IsListing(order, baseline.Keys) && text == Text(order, baseline)
  {
    var order := SortKeys(baseline.Keys);
    text := Text(order, baseline);
  }

  datatype ParseError = Malformed(line: string)

  /** One line: nothing, an entry (path, digest), or a line that does not split in two. */
  function ParseLine(line: string): Result<Option<(string, string)>, ParseError> {
    var s := Strip(line);
    if s == "" then Ok(None)
    else
      var (digest, rest) := SplitOnce(s);
      if rest == "" then Err(Malformed(line)) else Ok(Some((Strip(rest), Strip(digest))))
  }

  type Parsed = Result<map<string, string>, ParseError>

  /** What reads one line. */
  type Parser = string -> Result<Option<(string, string)>, ParseError>

  /** A line that does not parse stops the reading; an entry overrides an earlier one. */
  function Recorded(sofar: Parsed, entry: Result<Option<(string, string)>, ParseError>): Parsed {
    if sofar.Err? then sofar
    else if entry.Err? then Err(entry.error)
    else if entry.value.Some? then Ok(sofar.value[entry.value.value.0 := entry.value.value.1])
    else sofar
  }

  function Collected(parse: Parser, lines: seq<string>): Parsed {
    if lines == [] then Ok(map[])
    else Recorded(Collected(parse, lines[..|lines| - 1]), parse(lines[|lines| - 1]))
  }

  function Parse(lines: seq<string>): Parsed { Collected(ParseLine, lines) }

  /** The loop of read_baseline over the lines. */
  method CollectLines(parse: Parser, lines: seq<string>) returns (r: Parsed)
    ensures r == Collected(parse, lines)
  {
    var baseline: map<string, string> := map[];
    for i := 0 to |lines|
      invariant Collected(parse, lines[..i]) == Ok(baseline)
    {
      assert lines[..i + 1][..i] == lines[..i];
      var entry := parse(lines[i]);
      if entry.Err? {
        ErrorSticks(parse, lines, i + 1);
        return Err(entry.error);
      }
      if entry.value.Some? {
        baseline := baseline[entry.value.value.0 := entry.value.value.1];
      }
    }
    assert lines[..|lines|] == lines;
    return Ok(baseline);
  }

  lemma {:induction false} ErrorSticks(parse: Parser, lines: seq<string>, i: nat)
    requires i <= |lines| && Collected(parse, lines[..i]).Err?
    ensures Collected(parse, lines) == Collected(parse, lines[..i])
    decreases |lines| - i
  {
    if i == |lines| {
      assert lines[..i] == lines;
    } else {
      assert lines[..i + 1][..i] == lines[..i];
      ErrorSticks(parse, lines, i + 1);
    }
  }

  /** read_baseline; no file is an empty baseline. */
  method ReadBaseline(file: Option<string>) returns (r: Parsed)
    ensures r == if file.None? then Ok(map[]) else Parse(SplitLines(file.value))
  {
    if file.None? {
      return Ok(map[]);
    }
    r := CollectLines(ParseLine, SplitLines(file.value));
  }

  // -- Reading back what was written -------------------------------------------------------

  predicate IsToken(s: string) { s != "" && forall c | c in s :: !IsSpace(c) }

  predicate IsTrimmed(s: string) {
    s != "" && !IsSpace(s[0]) && !IsSpace(s[|s| - 1]) && forall c | c in s :: !IsBreak(c)
  }

  /** What the round trip asks of a baseline. */
  ghost predicate Printable(baseline: map<string, string>) {
    forall p | p in baseline :: IsTrimmed(p) && IsToken(baseline[p])
  }

  lemma EndsOf(path: string, digest: string)
    requires IsTrimmed(path) && IsToken(digest)
    ensures var line := digest + "  " + path;
            && line != "" && !IsSpace(line[0]) && !IsSpace(line[|line| - 1])
            && forall c | c in line :: !IsBreak(c)
  {
    var line := digest + "  " + path;
    assert line[0] == digest[0] && digest[0] in digest;
    assert line[|line| - 1] == path[|path| - 1];
    forall c | c in line ensures !IsBreak(c) {
      assert c in digest || c in "  " || c in path;
    }
  }

  lemma SplitsAtGap(digest: string, gap: string, path: string)
    requires IsToken(digest) && gap != "" && AllSpace(gap) && Trim(path)
    ensures SplitOnce(digest + gap + path) == (digest, path)
  {
    var line := digest + gap + path;
    assert line == digest + (gap + path);
    FirstStop(digest, gap + path, IsSpace);
    assert line[..|digest|] == digest && line[|digest|..] == gap + path;
    LStripPad(gap, path);
  }

  lemma TokenIsTrim(digest: string)
    requires IsToken(digest)
    ensures Trim(digest)
  {
    assert digest[0] in digest && digest[|digest| - 1] in digest;
  }

  /** A line of two words apart, with any white space around and between them, is an
      entry; the second may have white space inside. */
  lemma EntryLine(pad: string, digest: string, gap: string, path: string, end: string)
    requires AllSpace(pad) && IsToken(digest) && gap != "" && AllSpace(gap) && Trim(path) && AllSpace(end)
    ensures ParseLine(pad + (digest + gap + path) + end) == Ok(Some((path, digest)))
  {
    var core := digest + gap + path;
    TokenIsTrim(digest);
    assert core[0] == digest[0] && core[|core| - 1] == path[|path| - 1];
    StripPads(pad, core, end);
    SplitsAtGap(digest, gap, path);
    StripTrimmed(path);
    StripTrimmed(digest);
  }

  /** A line of one word is malformed. */
  lemma OneWordLine(pad: string, word: string, end: string)
    requires AllSpace(pad) && IsToken(word) && AllSpace(end)
    ensures ParseLine(pad + word + end) == Err(Malformed(pad + word + end))
  {
    TokenIsTrim(word);
    StripPads(pad, word, end);
    assert word + "" == word;
    FirstStop(word, "", IsSpace);
  }

  /** A blank line is no entry. */
  lemma BlankLine(line: string)
    requires AllSpace(line)
    ensures ParseLine(line) == Ok(None)
  {
    StripBlank(line);
  }

  /** A printed line reads back as its entry. */
  lemma LineRoundTrip(path: string, digest: string)
    requires IsTrimmed(path) && IsToken(digest)
    ensures ParseLine(digest + "  " + path) == Ok(Some((path, digest)))
  {
    EntryLine("", digest, "  ", path, "");
    assert "" + (digest + "  " + path) + "" == digest + "  " + path;
  }

  /** Lines without breaks come back from their joined text. */
  lemma {:induction false} LinesRoundTrip(lines: seq<string>)
    requires lines != [] && forall i | 0 <= i < |lines| :: forall c | c in lines[i] :: !IsBreak(c)
    ensures SplitLines(Join(lines) + "\n") == lines
  {
    var first := lines[0];
    var rest := if |lines| == 1 then "" else Join(lines[1..]) + "\n";
    var text := Join(lines) + "\n";
    assert text == first + ("\n" + rest);
    FirstStop(first, "\n" + rest, IsBreak);
    assert text[|first|] == '\n' && text[..|first|] == first && text[|first| + 1..] == rest;
    if |lines| > 1 {
      LinesRoundTrip(lines[1..]);
    }
    assert lines == [first] + lines[1..];
  }

  lemma ParseAppend(lines: seq<string>, line: string, m: map<string, string>, path: string, digest: string)
    requires Parse(lines) == Ok(m) && ParseLine(line) == Ok(Some((path, digest)))
    ensures Parse(lines + [line]) == Ok(m[path := digest])
  {
    assert (lines + [line])[..|lines|] == lines;
  }

  /** Line i is the last entry for this path, with this digest. */
  ghost predicate LastEntry(parse: Parser, lines: seq<string>, i: nat, path: string, digest: string) {
    && i < |lines| && parse(lines[i]) == Ok(Some((path, digest)))
    && forall j, other | i < j < |lines| :: parse(lines[j]) != Ok(Some((path, other)))
  }

  /** Line i is the first that does not parse. */
  ghost predicate FirstBad(parse: Parser, lines: seq<string>, i: nat) {
    && i < |lines| && parse(lines[i]).Err?
    && forall j | 0 <= j < i :: parse(lines[j]).Ok?
  }

  /** Reading fails at the first line that does not parse, with its error; otherwise every
      path that has an entry is recorded with the digest of its last one, and no other. */
  lemma {:induction false} CollectedMeans(parse: Parser, lines: seq<string>, path: string)
    ensures match Collected(parse, lines)
            case Err(e) => exists i: nat :: FirstBad(parse, lines, i) && parse(lines[i]).error == e
            case Ok(baseline) =>
              && (forall i | 0 <= i < |lines| :: parse(lines[i]).Ok?)
              && (path in baseline ==> exists i: nat :: LastEntry(parse, lines, i, path, baseline[path]))
              && (path !in baseline ==> forall i, digest | 0 <= i < |lines| :: parse(lines[i]) != Ok(Some((path, digest))))
    decreases |lines|
  {
    if lines != [] {
      var init, last := lines[..|lines| - 1], |lines| - 1;
      CollectedMeans(parse, init, path);
      assert forall i | 0 <= i < last :: init[i] == lines[i];
      var before, entry := Collected(parse, init), parse(lines[last]);
      if before.Err? {
        var i: nat :| FirstBad(parse, init, i) && parse(init[i]).error == before.error;
        assert FirstBad(parse, lines, i);
      } else if entry.Err? {
        assert FirstBad(parse, lines, last);
      } else if entry.value.Some? && entry.value.value.0 == path {
        assert LastEntry(parse, lines, last, path, entry.value.value.1);
      } else if path in before.value {
        var i: nat :| LastEntry(parse, init, i, path, before.value[path]);
        assert LastEntry(parse, lines, i, path, before.value[path]);
      }
    }
  }

  /** The entries of the listed paths. */
  function Entries(order: seq<string>, baseline: map<string, string>): map<string, string> {
    map p | p in order && p in baseline :: baseline[p]
  }

  lemma EntriesAppend(order: seq<string>, last: string, baseline: map<string, string>)
    requires last in baseline
    ensures Entries(order + [last], baseline) == Entries(order, baseline)[last := baseline[last]]
  {
  }

  lemma LinesAppend(order: seq<string>, last: string, baseline: map<string, string>)
    requires last in baseline && forall p | p in order :: p in baseline
    ensures (forall p | p in order + [last] :: p in baseline)
    ensures Lines(order + [last], baseline) == Lines(order, baseline) + [baseline[last] + "  " + last]
  {
  }

  lemma {:induction false} ParseListing(order: seq<string>, baseline: map<string, string>)
    requires Printable(baseline) && forall p | p in order :: p in baseline
    ensures Parse(Lines(order, baseline)) == Ok(Entries(order, baseline))
    decreases |order|
  {
    if order != [] {
      var init, last := order[..|order| - 1], order[|order| - 1];
      assert order == init + [last];
      ParseListing(init, baseline);
      LineRoundTrip(last, baseline[last]);
      LinesAppend(init, last, baseline);
      ParseAppend(Lines(init, baseline), baseline[last] + "  " + last, Entries(init, baseline), last, baseline[last]);
      EntriesAppend(init, last, baseline);
    }
  }

  /** read_baseline(write_baseline(b)) == b. */
  lemma RoundTrip(order: seq<string>, baseline: map<string, string>)
    requires Printable(baseline) && IsListing(order, baseline.Keys)
    ensures Parse(SplitLines(Text(order, baseline))) == Ok(baseline)
  {
    var lines := Lines(order, baseline);
    ParseListing(order, baseline);
    assert Entries(order, baseline) == baseline;
    if order == [] {
      assert Text(order, baseline) == "\n";
      assert SplitLines("\n") == [""];
      assert Parse([""]) == Ok(map[]) by { assert [""][..0] == []; }
    } else {
      forall i | 0 <= i < |lines| ensures forall c | c in lines[i] :: !IsBreak(c) {
        EndsOf(order[i], baseline[order[i]]);
      }
      LinesRoundTrip(lines);
    }
  }

  // -- Line endings --------------------------------------------------------------------------

  /** bytes.replace(b"\r\n", b"\n") */
  function Normalized(t: string): string {
    if |t| >= 2 && t[0] == '\r' && t[1] == '\n' then "\n" + Normalized(t[2..])
    else if t == "" then "" else [t[0]] + Normalized(t[1..])
  }

  /** A checkout that turns every LF into CR LF. */
  function Crlf(t: string): string {
    if t == "" then ""
    else (if t[0] == '\n' then "\r\n" else [t[0]]) + Crlf(t[1..])
  }

  lemma {:induction false} CrlfAppend(a: string, b: string)
    ensures Crlf(a + b) == Crlf(a) + Crlf(b)
  {
    if a == "" {
      assert a + b == b;
    } else {
      assert (a + b)[1..] == a[1..] + b;
      CrlfAppend(a[1..], b);
    }
  }

  lemma {:induction false} CrlfOfLine(line: string)
    requires forall c | c in line :: !IsBreak(c)
    ensures Crlf(line) == line
  {
    if line != "" {
      assert line[0] in line && line == [line[0]] + line[1..];
      CrlfOfLine(line[1..]);
    }
  }

  lemma CrlfOfFirst(first: string, rest: string)
    requires forall c | c in first :: !IsBreak(c)
    ensures Crlf(first + ("\n" + rest)) == first + ("\r\n" + Crlf(rest))
  {
    CrlfAppend(first, "\n" + rest);
    CrlfOfLine(first);
    assert ("\n" + rest)[1..] == rest;
  }

  lemma SplitsFirst(first: string, tail: string)
    requires forall c | c in first :: !IsBreak(c)
    ensures SplitLines(first + ("\r\n" + tail)) == [first] + SplitLines(tail)
  {
    var text := first + ("\r\n" + tail);
    FirstStop(first, "\r\n" + tail, IsBreak);
    assert text[|first|] == '\r' && text[|first| + 1] == '\n' && text[..|first|] == first && text[|first| + 2..] == tail;
  }

  /** A CR LF checkout of the baseline file itself reads as the same lines. */
  lemma {:induction false} CrlfLinesRoundTrip(lines: seq<string>)
    requires lines != [] && forall i | 0 <= i < |lines| :: forall c | c in lines[i] :: !IsBreak(c)
    ensures SplitLines(Crlf(Join(lines) + "\n")) == lines
  {
    var first := lines[0];
    var rest := if |lines| == 1 then "" else Join(lines[1..]) + "\n";
    assert Join(lines) + "\n" == first + ("\n" + rest);
    CrlfOfFirst(first, rest);
    SplitsFirst(first, Crlf(rest));
    if |lines| > 1 { CrlfLinesRoundTrip(lines[1..]); }
    assert lines == [first] + lines[1..];
  }

  predicate NoPair(t: string) {
    forall i | 0 <= i < |t| - 1 :: !(t[i] == '\r' && t[i + 1] == '\n')
  }

  lemma {:induction false} CrlfUndone(t: string)
    ensures Normalized(Crlf(t)) == t
  {
    if t != "" {
      CrlfUndone(t[1..]);
      var rest := Crlf(t[1..]);
      if t[0] == '\n' {
        assert Crlf(t)[2..] == rest;
      } else {
        assert Crlf(t)[1..] == rest;
      }
      assert t == [t[0]] + t[1..];
    }
  }

  lemma {:induction false} NormalizedLength(t: string)
    ensures |Normalized(t)| <= |t|
    ensures |Normalized(t)| == |t| <==> NoPair(t)
    ensures NoPair(t) ==> Normalized(t) == t
  {
    if |t| >= 2 && t[0] == '\r' && t[1] == '\n' {
      NormalizedLength(t[2..]);
    } else if t != "" {
      NormalizedLength(t[1..]);
      assert t == [t[0]] + t[1..];
      assert NoPair(t) ==> NoPair(t[1..]) by {
        forall i | 0 <= i < |t[1..]| - 1 && NoPair(t) ensures !(t[1..][i] == '\r' && t[1..][i + 1] == '\n') {
          assert !(t[i + 1] == '\r' && t[i + 2] == '\n');
        }
      }
      assert NoPair(t[1..]) ==> NoPair(t) by {
        forall i | 0 <= i < |t| - 1 && NoPair(t[1..]) ensures !(t[i] == '\r' && t[i + 1] == '\n') {
          if i > 0 { assert t[i] == t[1..][i - 1] && t[i + 1] == t[1..][i]; }
        }
      }
    }
  }

  /** LF and CRLF checkouts of a text hash the same bytes exactly when the text itself
      contains no CR LF pair. */
  lemma CheckoutsAgree(t: string)
    ensures Normalized(Crlf(t)) == Normalized(t) <==> NoPair(t)
  {
    CrlfUndone(t);
    NormalizedLength(t);
  }

  // -- The guard --------------------------------------------------------------------------------

  datatype Guarded =
    | Missing(path: string)          // a frozen file does not exist
    | Unreadable(error: ParseError)  // the recorded baseline does not parse
    | Created(text: string)          // no baseline yet: this one was written
    | Passed
    | Changed(paths: seq<string>)

  /** What is fixed: the contents of the frozen files and the hash of normalized bytes. */
  datatype Disk = Disk(files: map<string, string>, hash: string -> string) {
    function DigestOf(path: string): string
      requires path in files
    {
      hash(Normalized(files[path]))
    }
  }

  /** The dictionary keys, in the order of their first insertion. */
  function Keys(paths: seq<string>): seq<string> {
    if paths == [] then []
    else
      var init, last := Keys(paths[..|paths| - 1]), paths[|paths| - 1];
      if last in init then init else init + [last]
  }

  /** compute_baseline: the entries, and their order. */
  method ComputeBaseline(disk: Disk, paths: seq<string>)
    returns (order: seq<string>, current: Result<map<string, string>, string>)
    ensures current.Ok? <==> forall p | p in paths :: p in disk.files
    ensures current.Ok? ==> order == Keys(paths) && current.value == map p | p in paths && p in disk.files :: disk.DigestOf(p)
    ensures current.Err? ==> current.error in paths && current.error !in disk.files
  {
    var entries: map<string, string> := map[];
    order := [];
    for i := 0 to |paths|
      invariant forall p | p in paths[..i] :: p in disk.files
      invariant order == Keys(paths[..i])
      invariant entries == map p | p in paths[..i] && p in disk.files :: disk.DigestOf(p)
    {
      assert paths[..i + 1][..i] == paths[..i] && paths[..i + 1] == paths[..i] + [paths[i]];
      if paths[i] !in disk.files {
        assert paths[i] in paths;
        return order, Err(paths[i]);
      }
      if paths[i] !in order { order := order + [paths[i]]; }
      entries := entries[paths[i] := disk.DigestOf(paths[i])];
    }
    assert paths[..|paths|] == paths;
    current := Ok(entries);
  }

  /** The recorded files whose digest is no longer the recorded one, in order. */
  function ChangedIn(order: seq<string>, current: map<string, string>, recorded: map<string, string>): seq<string> {
    if order == [] then []
    else
      var before, p := ChangedIn(order[..|order| - 1], current, recorded), order[|order| - 1];
      if p in current && p in recorded && recorded[p] != current[p] then before + [p] else before
  }

  /** check_breaking_change_guard; recorded is the baseline file, if there is one. */
  method CheckGuard(disk: Disk, paths: seq<string>, recorded: Option<string>) returns (r: Guarded)
    ensures r.Missing? <==> exists p | p in paths :: p !in disk.files
    ensures r.Missing? ==> r.path in paths && r.path !in disk.files
    ensures r.Created? <==> recorded.None? && !r.Missing?
    ensures r.Created? ==> exists order, current ::
              IsCurrent(disk, paths, current) && IsListing(order, current.Keys) && r.text == Text(order, current)
    ensures recorded.Some? && !r.Missing? && Parse(SplitLines(recorded.value)).Ok? ==>
              exists current :: IsCurrent(disk, paths, current)
                && var changed := ChangedIn(Keys(paths), current, Parse(SplitLines(recorded.value)).value);
                   r == if changed == [] then Passed else Changed(changed)
    ensures recorded.Some? && !r.Missing? && Parse(SplitLines(recorded.value)).Err? ==>
              r == Unreadable(Parse(SplitLines(recorded.value)).error)
  {
    var order, current := ComputeBaseline(disk, paths);
    if current.Err? {
      return Missing(current.error);
    }
    assert IsCurrent(disk, paths, current.value);
    if recorded.None? {
      var text := WriteBaseline(current.value);
      return Created(text);
    }
    var parsed := ReadBaseline(recorded);
    if parsed.Err? {
      return Unreadable(parsed.error);
    }
    var changed := ChangedIn(order, current.value, parsed.value);
    r := if changed == [] then Passed else Changed(changed);
  }

  /** These are the digests of the frozen files as they are now. */
  ghost predicate IsCurrent(disk: Disk, paths: seq<string>, current: map<string, string>) {
    && (forall p | p in paths :: p in disk.files)
    && current == map p | p in paths && p in disk.files :: disk.DigestOf(p)
  }

  /** The guard names the changed files, in the order of the frozen list. */
  lemma {:induction false} ChangedMeans(order: seq<string>, current: map<string, string>, recorded: map<string, string>, p: string)
    ensures p in ChangedIn(order, current, recorded) <==>
              p in order && p in current && p in recorded && recorded[p] != current[p]
    ensures Subsequence(ChangedIn(order, current, recorded), order)
    decreases |order|
  {
    if order != [] {
      ChangedMeans(order[..|order| - 1], current, recorded, p);
      assert p in order <==> p == order[|order| - 1] || p in order[..|order| - 1];
    }
  }

  /** A list that names no file twice is its own list of keys. */
  lemma {:induction false} KeysOfDistinct(paths: seq<string>)
    requires forall i, j | 0 <= i < j < |paths| :: paths[i] != paths[j]
    ensures Keys(paths) == paths
    decreases |paths|
  {
    if paths != [] {
      KeysOfDistinct(paths[..|paths| - 1]);
      assert paths == paths[..|paths| - 1] + [paths[|paths| - 1]];
    }
  }

  lemma {:induction false} KeysAre(paths: seq<string>, p: string)
    ensures p in Keys(paths) <==> p in paths
    decreases |paths|
  {
    if paths != [] {
      KeysAre(paths[..|paths| - 1], p);
      assert p in paths <==> p == paths[|paths| - 1] || p in paths[..|paths| - 1];
    }
  }

  /** What the guard finds when a baseline is written from one state of the files and
      read back beside another: exactly the frozen files whose normalized digest changed
      are reported; so it passes right after writing, and when only line endings of
      pair-free files changed. */
  lemma {:induction false} GuardReportsChanges(disk: Disk, later: map<string, string>, paths: seq<string>, order: seq<string>,
                                               written: map<string, string>, current: map<string, string>,
                                               recorded: map<string, string>, p: string)
    requires IsCurrent(disk, paths, written) && IsListing(order, written.Keys) && Printable(written)
    requires IsCurrent(disk.(files := later), paths, current)
    requires Parse(SplitLines(Text(order, written))) == Ok(recorded)
    ensures p in ChangedIn(Keys(paths), current, recorded) <==>
              p in paths && disk.hash(Normalized(later[p])) != disk.hash(Normalized(disk.files[p]))
    ensures p in paths && (later[p] == disk.files[p] || (NoPair(disk.files[p]) && later[p] == Crlf(disk.files[p]))) ==>
              p !in ChangedIn(Keys(paths), current, recorded)
  {
    RoundTrip(order, written);
    ChangedMeans(Keys(paths), current, written, p);
    KeysAre(paths, p);
    if p in paths { CheckoutsAgree(disk.files[p]); }
  }
}
