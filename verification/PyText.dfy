/** Python's string methods on white space and lines. */
module PyText {

  predicate IsSpace(c: char) {
    var k := c as int;
    || 9 <= k <= 13 || 28 <= k <= 32 || k == 0x85 || k == 0xA0 || k == 0x1680
    || 0x2000 <= k <= 0x200A || k == 0x2028 || k == 0x2029 || k == 0x202F || k == 0x205F || k == 0x3000
  }

  predicate IsBreak(c: char) {
    var k := c as int;
    10 <= k <= 13 || 28 <= k <= 30 || k == 0x85 || k == 0x2028 || k == 0x2029
  }

  function LeadingUntil(s: string, stop: char -> bool): (n: nat)
    ensures n <= |s|
    ensures forall i | 0 <= i < n :: !stop(s[i])
    ensures n < |s| ==> stop(s[n])
  {
    if s == "" || stop(s[0]) then 0 else 1 + LeadingUntil(s[1..], stop)
  }

  predicate IsInk(c: char) { !IsSpace(c) }

  function LStrip(s: string): string { s[LeadingUntil(s, IsInk)..] }

  function RStrip(s: string): string {
    if s != "" && IsSpace(s[|s| - 1]) then RStrip(s[..|s| - 1]) else s
  }

  /** str.strip() */
  function Strip(s: string): string { RStrip(LStrip(s)) }

  /** str.splitlines(): CR LF is one break, and a final break opens no line. */
  function SplitLines(s: string): seq<string> {
    if s == "" then []
    else
      var n := LeadingUntil(s, IsBreak);
      if n == |s| then [s]
      else
        var width := if s[n] == '\r' && n + 1 < |s| && s[n + 1] == '\n' then 2 else 1;
        [s[..n]] + SplitLines(s[n + width..])
  }

  /** str.split(None, 1) of a string that does not begin with white space. */
  function SplitOnce(s: string): (string, string) {
    var n := LeadingUntil(s, IsSpace);
    (s[..n], LStrip(s[n..]))
  }

  lemma StripTrimmed(s: string)
    requires s != "" ==> !IsSpace(s[0]) && !IsSpace(s[|s| - 1])
    ensures Strip(s) == s
  {
  }

  predicate AllSpace(s: string) { forall c | c in s :: IsSpace(c) }

  /** It begins and ends with something other than white space. */
  predicate Trim(s: string) { s != "" && IsInk(s[0]) && IsInk(s[|s| - 1]) }

  lemma LStripPad(pad: string, rest: string)
    requires AllSpace(pad) && rest != "" && IsInk(rest[0])
    ensures LStrip(pad + rest) == rest
  {
    FirstStop(pad, rest, IsInk);
    assert (pad + rest)[|pad|..] == rest;
  }

  lemma {:induction false} RStripPad(core: string, end: string)
    requires Trim(core) && AllSpace(end)
    ensures RStrip(core + end) == core
    decreases |end|
  {
    var all := core + end;
    if end == "" {
      assert all == core;
    } else {
      assert all[|all| - 1] == end[|end| - 1] && end[|end| - 1] in end;
      assert all[..|all| - 1] == core + end[..|end| - 1];
      RStripPad(core, end[..|end| - 1]);
    }
  }

  /** strip takes the white space at both ends away, and nothing else. */
  lemma StripPads(pad: string, core: string, end: string)
    requires AllSpace(pad) && Trim(core) && AllSpace(end)
    ensures Strip(pad + core + end) == core
  {
    assert pad + core + end == pad + (core + end);
    LStripPad(pad, core + end);
    RStripPad(core, end);
  }

  lemma {:induction false} StripBlank(s: string)
    requires AllSpace(s)
    ensures Strip(s) == ""
  {
    assert s + "" == s;
    FirstStop(s, "", IsInk);
  }

  lemma {:induction false} FirstStop(a: string, b: string, stop: char -> bool)
    requires forall c | c in a :: !stop(c)
    requires b == "" || stop(b[0])
    ensures LeadingUntil(a + b, stop) == |a|
  {
    if a == "" {
      assert a + b == b;
    } else {
      assert (a + b)[1..] == a[1..] + b;
      FirstStop(a[1..], b, stop);
    }
  }
}
