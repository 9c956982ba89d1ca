/**
 Python string primitives shared by the posting parser and the chunker: white space, runs of a
 character class, stripping, joining, and words.
 */
module Text {

  /** The characters for which Python's `str.isspace` holds, which is also regex class `\s`. */
  predicate IsSpace(c: char) {
    || '\t' <= c <= '\r'
    || '\U{1c}' <= c <= ' '
    || c == '\U{85}' || c == '\U{a0}' || c == '\U{1680}'
    || '\U{2000}' <= c <= '\U{200a}'
    || c == '\U{2028}' || c == '\U{2029}' || c == '\U{202f}' || c == '\U{205f}' || c == '\U{3000}'
  }

  /** The character classes of the repository's regular expressions, and their complements. */
  datatype Class = Space | NonSpace | Newline | LabelChar | NonNewline | NonComma | Digit | WordChar

  predicate In(k: Class, c: char) {
    match k
    case Space => IsSpace(c)
    case NonSpace => !IsSpace(c)
    case LabelChar => IsLetter(c) || c == ' '
    case Newline => c == '\n'
    case NonNewline => c != '\n'
    case NonComma => c != ','
    case Digit => IsDigit(c)
    case WordChar => IsLetter(c) || IsDigit(c) || c == '_'
  }

  predicate IsLetter(c: char) {
    'A' <= c <= 'Z' || 'a' <= c <= 'z'
  }

  predicate IsDigit(c: char) {
    '0' <= c <= '9'
  }

  /** Number of leading characters in class `k`: what a greedy `[k]*` consumes. */
  function Run(k: Class, s: string): (n: nat)
    ensures n <= |s|
  {
    if s == [] || !In(k, s[0]) then 0 else 1 + Run(k, s[1..])
  }

  lemma {:induction false} RunEnds(k: Class, s: string)
    ensures var n := Run(k, s);
      (forall i :: 0 <= i < n ==> In(k, s[i])) && (n < |s| ==> !In(k, s[n]))
  {
    if s != [] && In(k, s[0]) {
      RunEnds(k, s[1..]);
      assert forall i :: 1 <= i < Run(k, s) ==> s[i] == s[1..][i - 1];
    }
  }

  /** A run is determined by where it ends. */
  lemma {:induction false} RunIs(k: Class, s: string, n: nat)
    requires n <= |s|
    requires forall i :: 0 <= i < n ==> In(k, s[i])
    requires n < |s| ==> !In(k, s[n])
    ensures Run(k, s) == n
  {
    if n > 0 {
      RunIs(k, s[1..], n - 1);
    }
  }

  /** A run covers a prefix in the class up to the first character outside it. */
  lemma RunOfPrefix(k: Class, a: string, b: string)
    requires forall c :: c in a ==> In(k, c)
    requires b != [] ==> !In(k, b[0])
    ensures Run(k, a + b) == |a|
  {
    var s := a + b;
    assert forall i :: 0 <= i < |a| ==> s[i] == a[i] && a[i] in a;
    RunIs(k, s, |a|);
  }

  predicate Trimmed(s: string) {
    s != [] ==> !IsSpace(s[0]) && !IsSpace(s[|s| - 1])
  }

  /** `str.strip()` from the right. */
  function RStrip(s: string): (r: string)
    ensures r <= s
    ensures r != [] ==> !IsSpace(r[|r| - 1])
    ensures forall i :: |r| <= i < |s| ==> IsSpace(s[i])
  {
    if s != [] && IsSpace(s[|s| - 1]) then RStrip(s[..|s| - 1]) else s
  }

  /** `str.strip()`. */
  function Strip(s: string): (r: string)
    ensures Trimmed(r)
    ensures forall c :: c in r ==> c in s
    ensures Trimmed(s) ==> r == s
  {
    RunEnds(Space, s);
    RStrip(s[Run(Space, s)..])
  }

  function Join(parts: seq<string>, sep: string): string {
    if parts == [] then ""
    else if |parts| == 1 then parts[0]
    else parts[0] + sep + Join(parts[1..], sep)
  }

  /** `str.split()` without arguments: the maximal runs of non-space characters. */
  function Words(s: string): seq<string> {
    if s == [] then []
    else if IsSpace(s[0]) then Words(s[1..])
    else [s[..Run(NonSpace, s)]] + Words(s[Run(NonSpace, s)..])
  }

  predicate IsWord(w: string) {
    w != [] && forall c :: c in w ==> !IsSpace(c)
  }

  lemma {:induction false} WordsAreWords(s: string)
    ensures forall w :: w in Words(s) ==> IsWord(w)
    decreases |s|
  {
    if s == [] {
    } else if IsSpace(s[0]) {
      WordsAreWords(s[1..]);
    } else {
      RunEnds(NonSpace, s);
      WordsAreWords(s[Run(NonSpace, s)..]);
    }
  }

  /** One word at the front, ended by a space or by the end of the text. */
  lemma WordsStep(w: string, b: string)
    requires IsWord(w)
    requires b != [] ==> IsSpace(b[0])
    ensures Words(w + b) == [w] + Words(b)
  {
    RunOfPrefix(NonSpace, w, b);
    assert (w + b)[..|w|] == w && (w + b)[|w|..] == b;
    assert w[0] in w;
  }

  /** Splitting at a space splits the word list. */
  lemma {:induction false} WordsConcat(a: string, b: string)
    requires b != [] ==> IsSpace(b[0])
    ensures Words(a + b) == Words(a) + Words(b)
    decreases |a|
  {
    if a == [] {
      assert a + b == b;
    } else if IsSpace(a[0]) {
      assert (a + b)[1..] == a[1..] + b;
      WordsConcat(a[1..], b);
    } else {
      var n := Run(NonSpace, a);
      RunEnds(NonSpace, a);
      var w, rest := a[..n], a[n..];
      WordsConcat(rest, b);
      WordsStep(w, rest + b);
      assert a + b == w + (rest + b);
    }
  }

  lemma {:induction false} WordsOfSpaces(s: string)
    requires forall c :: c in s ==> IsSpace(c)
    ensures Words(s) == []
  {
    if s != [] {
      assert s[0] in s;
      WordsOfSpaces(s[1..]);
    }
  }

  /** Leading white space carries no words. */
  lemma {:induction false} WordsDropSpaces(a: string, b: string)
    requires forall c :: c in a ==> IsSpace(c)
    ensures Words(a + b) == Words(b)
  {
    if a == [] {
      assert a + b == b;
    } else {
      assert a[0] in a;
      assert (a + b)[1..] == a[1..] + b;
      WordsDropSpaces(a[1..], b);
    }
  }

  lemma WordsOfWord(w: string)
    requires IsWord(w)
    ensures Words(w) == [w]
  {
    WordsStep(w, "");
    assert w + "" == w;
  }

  /** Trailing white space carries no words either. */
  lemma WordsDropTrailing(a: string, b: string)
    requires forall c :: c in b ==> IsSpace(c)
    ensures Words(a + b) == Words(a)
  {
    WordsOfSpaces(b);
    assert b != [] ==> b[0] in b;
    WordsConcat(a, b);
  }

  lemma WordsStrip(s: string)
    ensures Words(Strip(s)) == Words(s)
  {
    var n := Run(Space, s);
    RunEnds(Space, s);
    WordsLStrip(s, n);
    WordsRStrip(s[n..], RStrip(s[n..]));
  }

  lemma WordsLStrip(s: string, n: nat)
    requires n <= |s|
    requires forall i :: 0 <= i < n ==> IsSpace(s[i])
    ensures Words(s[n..]) == Words(s)
  {
    WordsDropSpaces(s[..n], s[n..]);
    assert s[..n] + s[n..] == s;
  }

  lemma WordsRStrip(s: string, r: string)
    requires r <= s
    requires forall i :: |r| <= i < |s| ==> IsSpace(s[i])
    ensures Words(r) == Words(s)
  {
    WordsDropTrailing(r, s[|r|..]);
    assert r + s[|r|..] == s;
  }
}
