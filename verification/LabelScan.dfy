/**
 The line grammar of a labelled posting: the multi-line regular expression
 `^([A-Za-z ]+):\s*(.+)$`, searched repeatedly over the whole text.
 */
module LabelScan {
  import opened Wrappers
  import opened Text

  /** One successful match: the two groups and the number of characters consumed. */
  datatype Match = Match(name: string, value: string, end: nat)

  /** The last position that does not hold a line end. */
  function LastNonNewline(s: string): (r: Option<nat>)
    ensures r.Some? ==> r.value < |s| && s[r.value] != '\n'
  {
    if s == [] then None
    else if s[|s| - 1] != '\n' then Some(|s| - 1)
    else LastNonNewline(s[..|s| - 1])
  }

  /** What `.+` consumes. */
  function RestOfLine(s: string): (r: string)
    ensures |r| <= |s|
  {
    s[..Run(NonNewline, s)]
  }

  lemma RestOfLineClean(s: string)
    ensures '\n' !in RestOfLine(s)
    ensures s != [] && s[0] != '\n' ==> RestOfLine(s) != []
  {
    RunEnds(NonNewline, s);
  }

  /** The second group, and how far behind the colon it ends. */
  datatype Value = Value(text: string, end: nat)

  /**
   What the expression matches behind the colon. `\s*` runs across line ends, and gives characters
   back when nothing is left for `.+`.
   */
  function MatchTail(tail: string): (r: Option<Value>)
    ensures r.Some? ==> r.value.end <= |tail|
  {
    var b := Run(Space, tail);
    if b < |tail| then Some(Value(RestOfLine(tail[b..]), b + |RestOfLine(tail[b..])|))
    else
      match LastNonNewline(tail)
      case None => None
      case Some(j) => Some(Value(tail[j..j + 1], j + 1))
  }

  /** The expression matched at the start of `s`, which must be the start of a line. */
  function MatchLine(s: string): (r: Option<Match>)
    ensures r.Some? ==> 0 < r.value.end <= |s|
  {
    var k := Run(LabelChar, s);
    if k == 0 || k == |s| || s[k] != ':' then None
    else
      match MatchTail(s[k + 1..])
      case None => None
      case Some(v) => Some(Match(s[..k], v.text, k + 1 + v.end))
  }

  lemma MatchTailValue(tail: string)
    ensures MatchTail(tail).Some? ==> '\n' !in MatchTail(tail).value.text
  {
    RestOfLineClean(tail[Run(Space, tail)..]);
  }

  lemma MatchValue(s: string)
    ensures MatchLine(s).Some? ==> '\n' !in MatchLine(s).value.value
  {
    var k := Run(LabelChar, s);
    if k < |s| {
      MatchTailValue(s[k + 1..]);
    }
  }

  /** `findall`: the groups of the successive matches; `bol` says whether `s` starts a line. */
  function FindAll(s: string, bol: bool): seq<(string, string)>
    decreases |s|
  {
    if s == [] then []
    else
      match if bol then MatchLine(s) else None
      case Some(m) => [(m.name, m.value)] + FindAll(s[m.end..], false)
      case None => FindAll(s[1..], s[0] == '\n')
  }

  /** A non-empty value that survives on one line: no line end, no outer white space. */
  predicate OneLine(s: string) {
    s != [] && Trimmed(s) && '\n' !in s
  }

  /** Without the leading white space, which the matcher skips. */
  function LStrip(s: string): string {
    s[Run(Space, s)..]
  }

  /** A value of one line with something to see on it; it may be padded with blanks. */
  predicate Visible(s: string) {
    LStrip(s) != [] && '\n' !in s
  }

  lemma LStripShape(s: string)
    ensures Strip(LStrip(s)) == Strip(s)
    ensures LStrip(s) != [] ==> !IsSpace(LStrip(s)[0]) && Strip(s) != []
    ensures OneLine(s) ==> Visible(s) && LStrip(s) == s
  {
    RunEnds(Space, s);
    if LStrip(s) != [] {
      assert Run(Space, LStrip(s)) == 0;
      assert LStrip(s)[0..] == LStrip(s);
    }
  }

  predicate IsLabel(s: string) {
    s != [] && forall c :: c in s ==> In(LabelChar, c)
  }

  function Line(field: (string, string)): string {
    field.0 + ": " + field.1
  }

  function Lines(fields: seq<(string, string)>): seq<string> {
    seq(|fields|, i requires 0 <= i < |fields| => Line(fields[i]))
  }

  predicate Printable(fields: seq<(string, string)>) {
    forall i :: 0 <= i < |fields| ==> IsLabel(fields[i].0) && Visible(fields[i].1)
  }

  /** What a scan finds of some printed fields. */
  function Scanned(fields: seq<(string, string)>): seq<(string, string)> {
    seq(|fields|, i requires 0 <= i < |fields| => (fields[i].0, LStrip(fields[i].1)))
  }

  /** Behind the colon, the blanks are skipped and the rest of the line is the value. */
  lemma TailOfParts(pad: string, shown: string, rest: string)
    requires forall c :: c in pad ==> IsSpace(c)
    requires shown != [] && !IsSpace(shown[0]) && '\n' !in shown
    requires rest != [] ==> rest[0] == '\n'
    ensures MatchTail(pad + (shown + rest)) == Some(Value(shown, |pad| + |shown|))
  {
    RunOfPrefix(Space, pad, shown + rest);
    RunOfPrefix(NonNewline, shown, rest);
    assert (pad + (shown + rest))[|pad|..] == shown + rest;
    assert (shown + rest)[..|shown|] == shown;
  }

  /** A visible value is some padding and what is to be seen. */
  lemma VisibleParts(value: string) returns (pad: string)
    requires Visible(value)
    ensures value == pad + LStrip(value) && '\n' !in LStrip(value) && !IsSpace(LStrip(value)[0])
    ensures forall c :: c in pad ==> IsSpace(c)
  {
    pad := value[..Run(Space, value)];
    RunEnds(Space, value);
    assert value == pad + LStrip(value);
  }

  lemma TailOfValue(value: string, pad: string, shown: string, rest: string)
    requires value == pad + shown
    requires forall c :: c in pad ==> IsSpace(c)
    requires shown != [] && !IsSpace(shown[0]) && '\n' !in shown
    requires rest != [] ==> rest[0] == '\n'
    ensures MatchTail(" " + (value + rest)) == Some(Value(shown, 1 + |value|))
  {
    var blanks := " " + pad;
    assert forall c :: c in blanks ==> c == ' ' || c in pad;
    Regrouped(pad, shown, rest);
    TailOfParts(blanks, shown, rest);
  }

  lemma TailPrinted(value: string, rest: string)
    requires Visible(value)
    requires rest != [] ==> rest[0] == '\n'
    ensures MatchTail(" " + (value + rest)) == Some(Value(LStrip(value), 1 + |value|))
  {
    var pad := VisibleParts(value);
    TailOfValue(value, pad, LStrip(value), rest);
  }

  lemma Regrouped(pad: string, shown: string, rest: string)
    ensures " " + ((pad + shown) + rest) == (" " + pad) + (shown + rest)
  {}

  /** The matcher reads one printed line back, whatever follows it on later lines. */
  lemma MatchPrinted(name: string, value: string, rest: string)
    requires IsLabel(name) && Visible(value)
    requires rest != [] ==> rest[0] == '\n'
    ensures MatchLine(name + (": " + (value + rest))) == Some(Match(name, LStrip(value), |name| + 2 + |value|))
  {
    TailPrinted(value, rest);
    ColonBlank(value + rest);
    MatchNamed(name, ": " + (value + rest), " " + (value + rest));
  }

  lemma ColonBlank(rest: string)
    ensures ":" + (" " + rest) == ": " + rest
  {}

  lemma MatchNamed(name: string, behind: string, tail: string)
    requires IsLabel(name) && behind == ":" + tail
    ensures MatchLine(name + behind) ==
      match MatchTail(tail)
      case None => None
      case Some(v) => Some(Match(name, v.text, |name| + 1 + v.end))
  {
    var s := name + behind;
    RunOfPrefix(LabelChar, name, behind);
    assert s[|name|] == ':' && s[..|name|] == name && s[|name| + 1..] == tail;
  }

  lemma FindAllHit(s: string, m: Match, rest: string)
    requires MatchLine(s) == Some(m) && s[m.end..] == rest
    ensures FindAll(s, true) == [(m.name, m.value)] + FindAll(rest, false)
  {}

  /** Scanning one printed line yields its field and goes on behind it. */
  lemma FindAllStep(name: string, value: string, rest: string)
    requires IsLabel(name) && Visible(value)
    requires rest != [] ==> rest[0] == '\n'
    ensures FindAll(name + (": " + (value + rest)), true) == [(name, LStrip(value))] + FindAll(rest, false)
  {
    MatchPrinted(name, value, rest);
    assert (name + (": " + (value + rest)))[|name| + 2 + |value|..] == rest;
    FindAllHit(name + (": " + (value + rest)), Match(name, LStrip(value), |name| + 2 + |value|), rest);
  }

  /** The text of some lines followed by `rest`. */
  function Printed(fields: seq<(string, string)>): string {
    Join(Lines(fields), "\n")
  }

  lemma PrintedCons(fields: seq<(string, string)>)
    requires fields != []
    ensures var f := fields[0];
      var rest := if |fields| == 1 then "" else "\n" + Printed(fields[1..]);
      Printed(fields) == f.0 + (": " + (f.1 + rest))
  {
    assert Lines(fields)[1..] == Lines(fields[1..]);
  }

  /** Scanning printed fields finds every one of them, in order, without the blanks in front of its value. */
  lemma {:induction false} FindAllPrinted(fields: seq<(string, string)>)
    requires Printable(fields)
    ensures FindAll(Printed(fields), true) == Scanned(fields)
  {
    if fields != [] {
      PrintedCons(fields);
      ScannedCons(fields);
      if |fields| == 1 {
        FindAllStep(fields[0].0, fields[0].1, "");
      } else {
        FindAllStep(fields[0].0, fields[0].1, "\n" + Printed(fields[1..]));
        NewlineStep(Printed(fields[1..]));
        FindAllPrinted(fields[1..]);
      }
    }
  }

  lemma ScannedCons(fields: seq<(string, string)>)
    requires fields != []
    ensures Scanned(fields) == [(fields[0].0, LStrip(fields[0].1))] + Scanned(fields[1..])
  {}

  /** Printing and scanning are inverse on fields whose values are trimmed lines. */
  lemma PrintedIsScanned(fields: seq<(string, string)>)
    requires forall i :: 0 <= i < |fields| ==> IsLabel(fields[i].0) && OneLine(fields[i].1)
    ensures FindAll(Printed(fields), true) == fields
  {
    forall i | 0 <= i < |fields|
      ensures Visible(fields[i].1) && LStrip(fields[i].1) == fields[i].1
    {
      LStripShape(fields[i].1);
    }
    FindAllPrinted(fields);
    assert Scanned(fields) == fields;
  }

  lemma NewlineStep(rest: string)
    ensures FindAll("\n" + rest, false) == FindAll(rest, true)
  {
    assert ("\n" + rest)[1..] == rest;
  }
}
