/**
 The value grammars of a labelled posting: ASCII case, decimals, comma lists, and compensation in
 any mix of cases.
 */
module FieldText {
  import opened Wrappers
  import opened Text

  // ---- Case ------------------------------------------------------------

  function LowerChar(c: char): char {
    if 'A' <= c <= 'Z' then (c as int + 32) as char else c
  }

  function UpperChar(c: char): char {
    if 'a' <= c <= 'z' then (c as int - 32) as char else c
  }

  function Lower(s: string): (r: string)
    ensures |r| == |s|
  {
    seq(|s|, i requires 0 <= i < |s| => LowerChar(s[i]))
  }

  function Upper(s: string): (r: string)
    ensures |r| == |s|
  {
    seq(|s|, i requires 0 <= i < |s| => UpperChar(s[i]))
  }

  // ---- Decimals --------------------------------------------------------

  function DigitOf(d: nat): char
    requires d < 10
  {
    ('0' as int + d) as char
  }

  function Digits(n: nat): (s: string)
    ensures s != []
  {
    if n < 10 then [DigitOf(n)] else Digits(n / 10) + [DigitOf(n % 10)]
  }

  function Decimal(n: int): string {
    if n < 0 then "-" + Digits(-n) else Digits(n)
  }

  function ParseNat(s: string): int {
    if s == [] then 0 else ParseNat(s[..|s| - 1]) * 10 + (s[|s| - 1] as int - '0' as int)
  }

  lemma {:induction false} DigitsRoundTrip(n: nat)
    ensures ParseNat(Digits(n)) == n
    ensures forall c :: c in Digits(n) ==> IsDigit(c)
    ensures n > 0 ==> Digits(n)[0] != '0'
  {
    var s := Digits(n);
    if n < 10 {
      assert ParseNat(s[..0]) == 0;
    } else {
      DigitsRoundTrip(n / 10);
      assert s[..|s| - 1] == Digits(n / 10);
    }
  }

  lemma {:induction false} ParseNatNonNegative(s: string)
    requires forall c :: c in s ==> IsDigit(c)
    ensures ParseNat(s) >= 0
  {
    if s != [] {
      assert s[|s| - 1] in s;
      ParseNatNonNegative(s[..|s| - 1]);
    }
  }

  // ---- Comma lists -----------------------------------------------------

  /** `s.split(",")`. */
  function SplitComma(s: string): (parts: seq<string>)
    ensures parts != []
    decreases |s|
  {
    var n := Run(NonComma, s);
    if n == |s| then [s] else [s[..n]] + SplitComma(s[n + 1..])
  }

  /** Strip every part and keep the non-empty ones. */
  function KeepParts(parts: seq<string>): seq<string> {
    if parts == [] then []
    else (if Strip(parts[0]) == [] then [] else [Strip(parts[0])]) + KeepParts(parts[1..])
  }

  function ParseCsv(raw: Option<string>): seq<string> {
    if raw == None || raw == Some("") then [] else KeepParts(SplitComma(raw.value))
  }

  predicate CsvPart(s: string) {
    s != [] && Trimmed(s) && ',' !in s
  }

  lemma {:induction false} SplitCommaParts(s: string)
    ensures forall p, c :: p in SplitComma(s) && c in p ==> c in s && c != ','
    decreases |s|
  {
    var n := Run(NonComma, s);
    RunEnds(NonComma, s);
    if n < |s| {
      SplitCommaParts(s[n + 1..]);
    }
  }

  lemma {:induction false} KeepPartsShape(parts: seq<string>)
    ensures forall q :: q in KeepParts(parts) ==>
      q != [] && Trimmed(q) && exists p :: p in parts && forall c :: c in q ==> c in p
  {
    if parts != [] {
      KeepPartsShape(parts[1..]);
      forall q | q in KeepParts(parts)
        ensures q != [] && Trimmed(q) && exists p :: p in parts && forall c :: c in q ==> c in p
      {
        if q in KeepParts(parts[1..]) {
          var p :| p in parts[1..] && forall c :: c in q ==> c in p;
          assert p in parts;
        } else {
          assert q == Strip(parts[0]) && parts[0] in parts;
        }
      }
    }
  }

  /** Whatever the text, a parsed comma list holds only clean parts made of its characters. */
  lemma ParsedCsvIsClean(raw: Option<string>)
    ensures forall q :: q in ParseCsv(raw) ==> CsvPart(q) && forall c :: c in q ==> raw.Some? && c in raw.value
  {
    if raw.Some? && raw.value != "" {
      var parts := SplitComma(raw.value);
      SplitCommaParts(raw.value);
      KeepPartsShape(parts);
      forall q | q in KeepParts(parts)
        ensures CsvPart(q) && forall c :: c in q ==> c in raw.value
      {
        var p :| p in parts && forall c :: c in q ==> c in p;
      }
    }
  }

  lemma StripLeadingSpace(s: string)
    ensures Strip(" " + s) == Strip(s)
  {
    var t := " " + s;
    RunEnds(Space, s);
    var n := Run(Space, s);
    assert forall i :: 0 <= i < n + 1 ==> In(Space, t[i]);
    RunIs(Space, t, n + 1);
    assert t[n + 1..] == s[n..];
  }

  /** A part in front of a comma is split off. */
  lemma SplitCommaCons(a: string, b: string)
    requires ',' !in a
    ensures SplitComma(a + ("," + b)) == [a] + SplitComma(b)
  {
    var s := a + ("," + b);
    RunOfPrefix(NonComma, a, "," + b);
    assert s[..|a|] == a && s[|a| + 1..] == b;
  }

  lemma SplitCommaWhole(a: string)
    requires ',' !in a
    ensures SplitComma(a) == [a]
  {
    RunOfPrefix(NonComma, a, "");
    assert a + "" == a;
  }

  /** A blank in front goes to the first part. */
  lemma SplitCommaShift(s: string)
    ensures SplitComma(" " + s) == [" " + SplitComma(s)[0]] + SplitComma(s)[1..]
  {
    var n := Run(NonComma, s);
    var t := " " + s;
    assert t[1..] == s;
    assert Run(NonComma, t) == n + 1;
    assert t[..n + 1] == " " + s[..n];
    if n == |s| {
      assert s[..n] == s;
    } else {
      assert t[n + 2..] == s[n + 1..];
    }
  }

  /** The blank that the printer puts after a comma is stripped with the part it precedes. */
  lemma SplitCommaBlank(s: string)
    ensures KeepParts(SplitComma(" " + s)) == KeepParts(SplitComma(s))
  {
    SplitCommaShift(s);
    KeepPartsShift(SplitComma(s)[0], SplitComma(s)[1..]);
    assert SplitComma(s) == [SplitComma(s)[0]] + SplitComma(s)[1..];
  }

  lemma KeepPartsShift(part: string, rest: seq<string>)
    ensures KeepParts([" " + part] + rest) == KeepParts([part] + rest)
  {
    StripLeadingSpace(part);
    assert ([" " + part] + rest)[1..] == rest == ([part] + rest)[1..];
  }

  lemma {:induction false} CsvRoundTrip(parts: seq<string>)
    requires parts != [] && forall p :: p in parts ==> CsvPart(p)
    ensures KeepParts(SplitComma(Join(parts, ", "))) == parts
  {
    var p, rest := parts[0], parts[1..];
    assert p in parts && parts == [p] + rest;
    if |parts| == 1 {
      SplitCommaWhole(p);
    } else {
      var tail := Join(rest, ", ");
      assert Join(parts, ", ") == p + ("," + (" " + tail));
      SplitCommaCons(p, " " + tail);
      SplitCommaBlank(tail);
      CsvRoundTrip(rest);
    }
  }

  // ---- Compensation ----------------------------------------------------

  datatype Compensation = Compensation(
    min: Option<int>, max: Option<int>, currency: Option<string>, period: Option<string>)

  const NO_COMPENSATION := Compensation(None, None, None, None)

  /** One or more characters of a class, greedily. */
  function Take(k: Class, s: string): Option<(string, string)> {
    var n := Run(k, s);
    if n == 0 then None else Some((s[..n], s[n..]))
  }

  lemma TakePrefix(k: Class, a: string, b: string)
    requires a != [] && (forall c :: c in a ==> In(k, c)) && (b != [] ==> !In(k, b[0]))
    ensures Take(k, a + b) == Some((a, b))
  {
    RunOfPrefix(k, a, b);
    assert (a + b)[..|a|] == a && (a + b)[|a|..] == b;
  }

  /** A three-character word in any case. */
  function TakeWord3(s: string): Option<(string, string)> {
    if |s| >= 3 then Some((s[..3], s[3..])) else None
  }

  /** `\s+` then a three-character word then `\s+`. */
  function TakeSpacedWord3(s: string): Option<(string, string)> {
    match Take(Space, s)
    case None => None
    case Some(gap) =>
      match TakeWord3(gap.1)
      case None => None
      case Some(word) => Some(word)
  }

  predicate IsLetters(s: string) {
    forall c :: c in s ==> IsLetter(c)
  }

  /** `\s+([A-Z]{3})\s+per\s+(\w+)`, ignoring case. */
  function MatchUnit(s: string): Option<(string, string)> {
    match TakeSpacedWord3(s)
    case None => None
    case Some(currency) =>
      if !IsLetters(currency.0) then None else
      match TakeSpacedWord3(currency.1)
      case None => None
      case Some(per) =>
        if Lower(per.0) != "per" then None else
        match Take(Space, per.1)
        case None => None
        case Some(gap) =>
          match Take(WordChar, gap.1)
          case None => None
          case Some(period) => Some((Upper(currency.0), Lower(period.0)))
  }

  /** `(\d+)-(\d+)` followed by the unit, at the start of `s`. */
  function MatchAmounts(s: string): Option<Compensation> {
    match Take(Digit, s)
    case None => None
    case Some(low) =>
      if low.1 == [] || low.1[0] != '-' then None else
      match Take(Digit, low.1[1..])
      case None => None
      case Some(high) =>
        match MatchUnit(high.1)
        case None => None
        case Some(unit) =>
          Some(Compensation(Some(ParseNat(low.0)), Some(ParseNat(high.0)), Some(unit.0), Some(unit.1)))
  }

  /** `re.search`: the leftmost match. */
  function SearchAmounts(s: string): Option<Compensation> {
    if MatchAmounts(s).Some? then MatchAmounts(s)
    else if s == [] then None
    else SearchAmounts(s[1..])
  }

  function ParseCompensation(raw: Option<string>): Compensation {
    if raw == None || raw == Some("") then NO_COMPENSATION
    else
      match SearchAmounts(raw.value)
      case None => NO_COMPENSATION
      case Some(c) => c
  }

  predicate IsCurrency(s: string) {
    |s| == 3 && forall c :: c in s ==> 'A' <= c <= 'Z'
  }

  predicate IsPeriod(s: string) {
    s != [] && (forall c :: c in s ==> In(WordChar, c)) && Lower(s) == s
  }

  /** All four parts present and clean, or none present. */
  predicate CleanCompensation(c: Compensation) {
    || c == NO_COMPENSATION
    || (&& c.min.Some? && c.max.Some? && c.currency.Some? && c.period.Some?
        && c.min.value >= 0 && c.max.value >= 0
        && IsCurrency(c.currency.value) && IsPeriod(c.period.value))
  }

  lemma CaseShape(s: string)
    ensures Lower(Lower(s)) == Lower(s)
    ensures (forall c :: c in s ==> In(WordChar, c)) ==> forall c :: c in Lower(s) ==> In(WordChar, c)
    ensures IsLetters(s) ==> forall c :: c in Upper(s) ==> 'A' <= c <= 'Z'
  {
    assert forall i :: 0 <= i < |s| ==> s[i] in s;
  }

  lemma TakeShape(k: Class, s: string)
    ensures Take(k, s).Some? ==> var (a, b) := Take(k, s).value; a != [] && forall c :: c in a ==> In(k, c)
  {
    RunEnds(k, s);
  }

  lemma UnitShape(s: string)
    ensures MatchUnit(s).Some? ==> IsCurrency(MatchUnit(s).value.0) && IsPeriod(MatchUnit(s).value.1)
  {
    if MatchUnit(s).Some? {
      var currency := TakeSpacedWord3(s).value;
      CaseShape(currency.0);
      var gap := Take(Space, TakeSpacedWord3(currency.1).value.1).value;
      TakeShape(WordChar, gap.1);
      CaseShape(Take(WordChar, gap.1).value.0);
    }
  }

  lemma AmountsShape(s: string)
    ensures MatchAmounts(s).Some? ==> CleanCompensation(MatchAmounts(s).value)
  {
    if MatchAmounts(s).Some? {
      var low := Take(Digit, s).value;
      var high := Take(Digit, low.1[1..]).value;
      TakeShape(Digit, s);
      TakeShape(Digit, low.1[1..]);
      ParseNatNonNegative(low.0);
      ParseNatNonNegative(high.0);
      UnitShape(high.1);
    }
  }

  lemma {:induction false} SearchShape(s: string)
    ensures SearchAmounts(s).Some? ==> CleanCompensation(SearchAmounts(s).value)
  {
    AmountsShape(s);
    if MatchAmounts(s).None? && s != [] {
      SearchShape(s[1..]);
    }
  }

  /** Whatever the text, a parsed compensation is complete and clean or absent. */
  lemma ParsedCompensationIsClean(raw: Option<string>)
    ensures CleanCompensation(ParseCompensation(raw))
  {
    if raw.Some? && raw.value != "" {
      SearchShape(raw.value);
    }
  }

  /** How the printer renders a compensation whose `min` is present. */
  function CompensationText(c: Compensation): string
    requires c.min.Some?
  {
    Decimal(c.min.value) + ("-" + ((if c.max.Some? then Decimal(c.max.value) else "None") + (" " +
      (if c.currency.Some? then c.currency.value else "") + " per " +
      (if c.period.Some? && c.period.value != "" then c.period.value else "year"))))
  }

  lemma UpperFixed(s: string)
    requires IsCurrency(s)
    ensures Upper(s) == s
  {
    assert s[0] in s && s[1] in s && s[2] in s;
    assert Upper(s)[0] == s[0] && Upper(s)[1] == s[1] && Upper(s)[2] == s[2];
  }

  lemma SpacedWord3(word: string, rest: string)
    requires |word| == 3 && !IsSpace(word[0])
    ensures TakeSpacedWord3(" " + (word + rest)) == Some((word, rest))
  {
    TakePrefix(Space, " ", word + rest);
    assert (word + rest)[..3] == word && (word + rest)[3..] == rest;
  }

  lemma PeriodTaken(period: string)
    requires period != [] && forall c :: c in period ==> In(WordChar, c)
    ensures Take(Space, " " + period) == Some((" ", period))
    ensures Take(WordChar, period) == Some((period, ""))
  {
    assert period[0] in period;
    TakePrefix(Space, " ", period);
    TakePrefix(WordChar, period, "");
    assert period + "" == period;
  }

  /** A unit in any mix of cases: the currency is read in upper case, the period in lower case. */
  lemma UnitAnyCase(currency: string, per: string, period: string)
    requires |currency| == 3 && IsLetters(currency) && |per| == 3 && Lower(per) == "per"
    requires period != [] && forall c :: c in period ==> In(WordChar, c)
    ensures MatchUnit(" " + (currency + (" " + (per + (" " + period))))) == Some((Upper(currency), Lower(period)))
  {
    assert currency[0] in currency;
    SpacedWord3(currency, " " + (per + (" " + period)));
    assert LowerChar(per[0]) == Lower(per)[0] == 'p';
    SpacedWord3(per, " " + period);
    PeriodTaken(period);
  }

  /** What a compensation line looks like, in any mix of cases. */
  function AmountText(low: nat, high: nat, currency: string, per: string, period: string): string {
    Digits(low) + ("-" + (Digits(high) + (" " + (currency + (" " + (per + (" " + period)))))))
  }

  lemma AmountAnyCase(low: nat, high: nat, currency: string, per: string, period: string)
    requires |currency| == 3 && IsLetters(currency) && |per| == 3 && Lower(per) == "per"
    requires period != [] && forall c :: c in period ==> In(WordChar, c)
    ensures MatchAmounts(AmountText(low, high, currency, per, period)) ==
      Some(Compensation(Some(low), Some(high), Some(Upper(currency)), Some(Lower(period))))
  {
    var unit := " " + (currency + (" " + (per + (" " + period))));
    UnitAnyCase(currency, per, period);
    AmountsBefore(low, high, unit);
  }

  lemma AmountsBefore(low: nat, high: nat, unit: string)
    requires unit != "" && unit[0] == ' ' && MatchUnit(unit).Some?
    ensures MatchAmounts(Digits(low) + ("-" + (Digits(high) + unit))) ==
      Some(Compensation(Some(low), Some(high), Some(MatchUnit(unit).value.0), Some(MatchUnit(unit).value.1)))
  {
    DigitsRoundTrip(low);
    DigitsRoundTrip(high);
    TakePrefix(Digit, Digits(low), "-" + (Digits(high) + unit));
    assert ("-" + (Digits(high) + unit))[1..] == Digits(high) + unit;
    TakePrefix(Digit, Digits(high), unit);
  }

  /** Text without digits in front of the amounts is skipped. */
  lemma {:induction false} SkippedText(before: string, s: string)
    requires (forall c :: c in before ==> !IsDigit(c)) && s != ""
    ensures SearchAmounts(before + s) == SearchAmounts(s)
  {
    if before == "" {
      assert before + s == s;
    } else {
      assert before[0] in before;
      assert (before + s)[1..] == before[1..] + s;
      SkippedText(before[1..], s);
    }
  }

  /** Wherever the first digits of a text are those of a compensation, it is found, in any mix of cases. */
  lemma CompensationAnyCase(before: string, low: nat, high: nat, currency: string, per: string, period: string)
    requires forall c :: c in before ==> !IsDigit(c)
    requires |currency| == 3 && IsLetters(currency) && |per| == 3 && Lower(per) == "per"
    requires period != [] && forall c :: c in period ==> In(WordChar, c)
    ensures ParseCompensation(Some(before + AmountText(low, high, currency, per, period))) ==
      Compensation(Some(low), Some(high), Some(Upper(currency)), Some(Lower(period)))
  {
    AmountAnyCase(low, high, currency, per, period);
    SkippedText(before, AmountText(low, high, currency, per, period));
  }

  lemma CompensationTextIs(c: Compensation, period: string)
    requires c.min.Some? && c.max.Some? && c.currency.Some? && c.min.value >= 0 && c.max.value >= 0
    requires period == if c.period.Some? && c.period.value != "" then c.period.value else "year"
    ensures CompensationText(c) == AmountText(c.min.value, c.max.value, c.currency.value, "per", period)
  {
    assert " " + c.currency.value + " per " + period == " " + (c.currency.value + (" " + ("per" + (" " + period))));
  }

  lemma LowerPer()
    ensures Lower("per") == "per" && Lower("year") == "year"
  {}

  lemma CompensationRoundTrip(c: Compensation)
    requires CleanCompensation(c) && c.min.Some?
    ensures ParseCompensation(Some(CompensationText(c))) == c
    ensures CompensationText(c) != []
  {
    PrintedCompensation(c, c.period.value);
  }

  /** A clean compensation whose period is missing is printed, and read back, with the period "year". */
  lemma MissingPeriodIsYear(c: Compensation)
    requires c.min.Some? && c.max.Some? && c.currency.Some? && c.min.value >= 0 && c.max.value >= 0
    requires IsCurrency(c.currency.value) && (c.period == None || c.period == Some(""))
    ensures ParseCompensation(Some(CompensationText(c))) == c.(period := Some("year"))
  {
    LowerPer();
    PrintedCompensation(c, "year");
  }

  lemma PrintedCompensation(c: Compensation, period: string)
    requires c.min.Some? && c.max.Some? && c.currency.Some? && c.min.value >= 0 && c.max.value >= 0
    requires IsCurrency(c.currency.value) && IsPeriod(period)
    requires period == if c.period.Some? && c.period.value != "" then c.period.value else "year"
    ensures ParseCompensation(Some(CompensationText(c))) == c.(period := Some(period))
    ensures CompensationText(c) != []
  {
    CompensationTextIs(c, period);
    LowerPer();
    UpperFixed(c.currency.value);
    var text := AmountText(c.min.value, c.max.value, c.currency.value, "per", period);
    assert "" + text == text;
    CompensationAnyCase("", c.min.value, c.max.value, c.currency.value, "per", period);
  }
}
