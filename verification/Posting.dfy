/** Labelled postings: the renderer, the label, and the extractor that reads one back. */
module Posting {
  import opened Wrappers
  import opened Text
  import opened LabelScan
  import opened FieldText
  import opened Vocabulary

  const CATEGORIES := [
    Job, Freelance, Consulting, Client, Startup, Grant, Fellowship, Scholarship, Accelerator,
    Incubator, Competition, Conference, Speaking, Research, Partnership, Business, OpenSource, Other]

  const REMOTES := [Onsite, Hybrid, RemoteWork, Unknown]

  function FindCategory(s: string, among: seq<Category>): Category {
    if among == [] then Other else if CategoryValue(among[0]) == s then among[0] else FindCategory(s, among[1..])
  }

  function FindRemote(s: string, among: seq<Remote>): Remote {
    if among == [] then Unknown else if RemoteValue(among[0]) == s then among[0] else FindRemote(s, among[1..])
  }

  /** An unusable or absent value becomes `Other`. */
  function ParseCategory(raw: Option<string>): Category {
    if raw == None || raw == Some("") then Other else FindCategory(Lower(Strip(raw.value)), CATEGORIES)
  }

  function ParseRemote(raw: Option<string>): Remote {
    if raw == None || raw == Some("") then Unknown else FindRemote(Lower(Strip(raw.value)), REMOTES)
  }

  /** A corpus row. */
  datatype Item = Item(
    title: string, organization: Option<string>, category: Category, country: Option<string>,
    remote: Option<Remote>, deadline: Option<string>, required: seq<string>, preferred: seq<string>,
    compensation: Compensation, summary: Option<string>)

  /** The structured result; a deadline is a day number. */
  datatype Extraction = Extraction(
    title: string, organization: Option<string>, category: Category, summary: Option<string>,
    country: Option<string>, remote: Remote, deadline: Option<int>,
    required: seq<string>, preferred: seq<string>, compensation: Compensation)

  /** `date.fromisoformat`, with its ValueError as `None`. */
  type IsoDate = string -> Option<int>

  // ---- The renderer ------------------------------------------------------

  const LABELS := ["Title", "Organization", "Category", "Country", "Remote", "Deadline",
                   "Required skills", "Preferred skills", "Compensation", "Summary"]

  const KEYS := ["title", "organization", "category", "country", "remote", "deadline",
                 "required skills", "preferred skills", "compensation", "summary"]

  function Truthy(s: Option<string>): Option<string> {
    if s == Some("") then None else s
  }

  function SkillsSlot(skills: seq<string>): Option<string> {
    if skills == [] then None else Some(Join(skills, ", "))
  }

  function CompensationSlot(c: Compensation): Option<string> {
    if c.min.Some? then Some(CompensationText(c)) else None
  }

  /** The value printed behind the i-th label, or `None` when that line is omitted. */
  function Slot(item: Item, i: nat): Option<string> {
    match i
    case 0 => Some(item.title)
    case 1 => Some(if Truthy(item.organization).Some? then item.organization.value else "Unknown")
    case 2 => Some(CategoryValue(item.category))
    case 3 => Truthy(item.country)
    case 4 => if item.remote.Some? then Some(RemoteValue(item.remote.value)) else None
    case 5 => Truthy(item.deadline)
    case 6 => SkillsSlot(item.required)
    case 7 => SkillsSlot(item.preferred)
    case 8 => CompensationSlot(item.compensation)
    case 9 => Truthy(item.summary)
    case _ => None
  }

  /** The fields printed by the first `n` lines. */
  function Fields(item: Item, n: nat): seq<(string, string)>
    requires n <= 10
  {
    if n == 0 then []
    else Fields(item, n - 1) + Field(item, n - 1)
  }

  function Field(item: Item, i: nat): seq<(string, string)>
    requires i < 10
  {
    Labelled(LABELS[i], Slot(item, i))
  }

  function Labelled(name: string, slot: Option<string>): seq<(string, string)> {
    if slot.Some? then [(name, slot.value)] else []
  }

  /** The whole posting. */
  function Render(item: Item): string {
    Printed(Fields(item, 10))
  }

  function LinesUpTo(item: Item, n: nat): seq<string>
    requires n <= 10
  {
    Lines(Fields(item, n))
  }

  /** What the next line adds to the lines printed so far. */
  lemma NextLine(item: Item, i: nat)
    requires i < 10
    ensures LinesUpTo(item, i + 1) == LinesUpTo(item, i) +
      if Slot(item, i).Some? then [LABELS[i] + ": " + Slot(item, i).value] else []
  {}

  lemma FirstLines(item: Item)
    ensures LinesUpTo(item, 3) == [
      "Title" + ": " + item.title,
      "Organization" + ": " + Slot(item, 1).value,
      "Category" + ": " + CategoryValue(item.category)]
  {
    NextLine(item, 0);
    NextLine(item, 1);
    NextLine(item, 2);
  }

  /** Renders the row line by line, as the source does. */
  method CorpusItemToPosting(item: Item) returns (text: string)
    ensures text == Render(item)
  {
    var organization := if Truthy(item.organization).Some? then item.organization.value else "Unknown";
    var lines := [
      "Title" + ": " + item.title,
      "Organization" + ": " + organization,
      "Category" + ": " + CategoryValue(item.category)];
    FirstLines(item);
    assert lines == LinesUpTo(item, 3);
    lines := AppendOptional(item, 3, lines, "Country", Truthy(item.country));
    lines := AppendOptional(item, 4, lines, "Remote",
      if item.remote.Some? then Some(RemoteValue(item.remote.value)) else None);
    lines := AppendOptional(item, 5, lines, "Deadline", Truthy(item.deadline));
    lines := AppendOptional(item, 6, lines, "Required skills", SkillsSlot(item.required));
    lines := AppendOptional(item, 7, lines, "Preferred skills", SkillsSlot(item.preferred));
    lines := AppendOptional(item, 8, lines, "Compensation", CompensationSlot(item.compensation));
    lines := AppendOptional(item, 9, lines, "Summary", Truthy(item.summary));
    text := Join(lines, "\n");
  }

  /** One `if value: lines.append(f"{name}: {value}")`. */
  method AppendOptional(ghost item: Item, ghost i: nat, lines: seq<string>, name: string, value: Option<string>)
    returns (r: seq<string>)
    requires i < 10 && lines == LinesUpTo(item, i)
    requires name == LABELS[i] && value == Slot(item, i)
    ensures r == LinesUpTo(item, i + 1)
  {
    r := lines;
    if value.Some? {
      r := r + [name + ": " + value.value];
    }
    NextLine(item, i);
  }

  // ---- The extractor -----------------------------------------------------

  /** The field dictionary: keys stripped and lower-cased, values stripped, the last one wins. */
  function Lookup(pairs: seq<(string, string)>, key: string): Option<string> {
    if pairs == [] then None
    else
      var last := pairs[|pairs| - 1];
      if Lower(Strip(last.0)) == key then Some(Strip(last.1)) else Lookup(pairs[..|pairs| - 1], key)
  }

  function ParseDeadline(raw: Option<string>, isoDate: IsoDate): Option<int> {
    if Truthy(raw).Some? then isoDate(Strip(raw.value)) else None
  }

  function ParseTitle(raw: Option<string>): string {
    if Truthy(raw).Some? then raw.value else "Unknown opportunity"
  }

  /** The values the extractor looks up. */
  datatype Found = Found(
    title: Option<string>, organization: Option<string>, category: Option<string>, country: Option<string>,
    remote: Option<string>, deadline: Option<string>, required: Option<string>, preferred: Option<string>,
    compensation: Option<string>, summary: Option<string>)

  function Find(pairs: seq<(string, string)>): Found {
    Found(
      Lookup(pairs, "title"), Lookup(pairs, "organization"), Lookup(pairs, "category"), Lookup(pairs, "country"),
      Lookup(pairs, "remote"), Lookup(pairs, "deadline"), Lookup(pairs, "required skills"),
      Lookup(pairs, "preferred skills"), Lookup(pairs, "compensation"), Lookup(pairs, "summary"))
  }

  function Interpret(f: Found, isoDate: IsoDate): Extraction {
    Extraction(
      title := ParseTitle(f.title),
      organization := f.organization,
      category := ParseCategory(f.category),
      summary := f.summary,
      country := f.country,
      remote := ParseRemote(f.remote),
      deadline := ParseDeadline(f.deadline, isoDate),
      required := ParseCsv(f.required),
      preferred := ParseCsv(f.preferred),
      compensation := ParseCompensation(f.compensation))
  }

  function Extract(text: string, isoDate: IsoDate): Extraction {
    Interpret(Find(FindAll(text, true)), isoDate)
  }

  /** The label: what the extractor is meant to recover. */
  function ToLabel(item: Item, isoDate: IsoDate): Extraction {
    Extraction(
      title := item.title,
      organization := item.organization,
      category := item.category,
      summary := item.summary,
      country := item.country,
      remote := if item.remote.Some? then item.remote.value else Unknown,
      deadline := if Truthy(item.deadline).Some? then isoDate(item.deadline.value) else None,
      required := item.required,
      preferred := item.preferred,
      compensation := item.compensation)
  }

  // ---- Well-formed rows --------------------------------------------------

  predicate OptOneLine(s: Option<string>) {
    s.Some? ==> OneLine(s.value)
  }

  predicate Skill(s: string) {
    CsvPart(s) && '\n' !in s
  }

  /** A deadline is absent, empty, or one line with something to see on it. */
  predicate VisibleDeadline(item: Item) {
    Truthy(item.deadline).Some? ==> Visible(item.deadline.value)
  }

  /** The padding of a deadline, which the extractor strips and the label keeps, makes no difference to its date. */
  predicate PaddingIsHarmless(item: Item, isoDate: IsoDate) {
    Truthy(item.deadline).Some? ==> isoDate(Strip(item.deadline.value)) == isoDate(item.deadline.value)
  }

  /** The rows that survive the round trip. */
  predicate WellFormed(item: Item) {
    && OneLine(item.title)
    && item.organization.Some? && OneLine(item.organization.value)
    && OptOneLine(item.country) && OptOneLine(item.summary)
    && (forall s :: s in item.required ==> Skill(s))
    && (forall s :: s in item.preferred ==> Skill(s))
    && CleanCompensation(item.compensation)
  }

  // ---- Reading the printed fields back -----------------------------------

  predicate SmallOrSpace(c: char) {
    'a' <= c <= 'z' || c == ' '
  }

  /** A key is its label with the first letter in lower case. */
  predicate KeyOfLabel(name: string, key: string) {
    && name != [] && key != []
    && 'A' <= name[0] <= 'Z' && key[0] == LowerChar(name[0])
    && name[1..] == key[1..]
    && (forall c :: c in key ==> SmallOrSpace(c))
    && key[|key| - 1] != ' '
  }

  lemma LabelOfKey(name: string, key: string)
    requires KeyOfLabel(name, key)
    ensures IsLabel(name) && Lower(Strip(name)) == key
  {
    assert forall i :: 1 <= i < |name| ==> name[i] == name[1..][i - 1] && key[i] == key[1..][i - 1];
    assert forall i :: 1 <= i < |name| ==> key[i] in key;
    assert Trimmed(name);
    assert Lower(name) == key;
  }

  lemma ShortLabels(i: nat)
    requires i < 5
    ensures KeyOfLabel(LABELS[i], KEYS[i])
  {}

  lemma LongLabels(i: nat)
    requires 5 <= i < 10
    ensures KeyOfLabel(LABELS[i], KEYS[i])
  {}

  lemma LabelKeys(i: nat)
    requires i < 10
    ensures IsLabel(LABELS[i]) && Lower(Strip(LABELS[i])) == KEYS[i]
  {
    if i < 5 {
      ShortLabels(i);
    } else {
      LongLabels(i);
    }
    LabelOfKey(LABELS[i], KEYS[i]);
  }

  lemma KeysDistinct(i: nat, j: nat)
    requires i < j < 10
    ensures KEYS[i] != KEYS[j]
  {
    assert |KEYS[i]| != |KEYS[j]| || KEYS[i][0] != KEYS[j][0];
  }

  lemma KeysAreIndices(i: nat, j: nat)
    requires i < 10 && j < 10
    ensures KEYS[i] == KEYS[j] <==> i == j
  {
    if i < j {
      KeysDistinct(i, j);
    } else if j < i {
      KeysDistinct(j, i);
    }
  }

  predicate OptVisible(s: Option<string>) {
    s.Some? ==> Visible(s.value)
  }

  predicate VisibleSlots(item: Item) {
    forall i :: 0 <= i < 10 ==> OptVisible(Slot(item, i))
  }

  function OptStrip(s: Option<string>): Option<string> {
    if s.Some? then Some(Strip(s.value)) else None
  }

  /** The blanks that a scan skips would be stripped anyway. */
  lemma {:induction false} LookupScanned(fs: seq<(string, string)>, key: string)
    ensures Lookup(Scanned(fs), key) == Lookup(fs, key)
  {
    if fs != [] {
      var n := |fs| - 1;
      assert Scanned(fs)[..n] == Scanned(fs[..n]);
      LStripShape(fs[n].1);
      LookupScanned(fs[..n], key);
    }
  }

  /** A printed slot, stripped, is what its own key finds, and hides no other key. */
  lemma LookupLast(fs: seq<(string, string)>, name: string, slot: Option<string>, own: string, key: string)
    requires Lower(Strip(name)) == own
    ensures Lookup(fs + Labelled(name, slot), key) ==
      if own == key && slot.Some? then OptStrip(slot) else Lookup(fs, key)
  {
    if slot.Some? {
      var all := fs + [(name, slot.value)];
      assert all[..|all| - 1] == fs;
    } else {
      assert fs + [] == fs;
    }
  }

  lemma {:induction false} LookupField(item: Item, n: nat, i: nat)
    requires n <= 10 && i < 10
    ensures Lookup(Fields(item, n), KEYS[i]) == if i < n then OptStrip(Slot(item, i)) else None
  {
    if n > 0 {
      LookupField(item, n - 1, i);
      LabelKeys(n - 1);
      LookupLast(Fields(item, n - 1), LABELS[n - 1], Slot(item, n - 1), KEYS[n - 1], KEYS[i]);
      KeysAreIndices(n - 1, i);
    }
  }

  lemma {:induction false} FieldsPrintable(item: Item, n: nat)
    requires n <= 10 && VisibleSlots(item)
    ensures Printable(Fields(item, n))
  {
    if n > 0 {
      FieldsPrintable(item, n - 1);
      LabelKeys(n - 1);
      assert OptVisible(Slot(item, n - 1));
    }
  }

  /** With visible slots, the dictionary read from the posting holds exactly what was printed, stripped. */
  lemma ScanRendered(item: Item, i: nat)
    requires VisibleSlots(item) && i < 10
    ensures Lookup(FindAll(Render(item), true), KEYS[i]) == OptStrip(Slot(item, i))
  {
    FieldsPrintable(item, 10);
    FindAllPrinted(Fields(item, 10));
    LookupScanned(Fields(item, 10), KEYS[i]);
    LookupField(item, 10, i);
  }

  /** Two enum values differ in length, in the first character, or in the fourth. */
  lemma CategoryValuesDistinct(a: Category, b: Category)
    requires a != b
    ensures CategoryValue(a) != CategoryValue(b)
  {
    var v, w := CategoryValue(a), CategoryValue(b);
    assert |v| != |w| || v[0] != w[0] || v[3] != w[3];
  }

  lemma {:induction false} FindCategoryHit(c: Category, among: seq<Category>)
    requires c in among
    ensures FindCategory(CategoryValue(c), among) == c
  {
    if among[0] != c {
      CategoryValuesDistinct(c, among[0]);
      FindCategoryHit(c, among[1..]);
    }
  }

  lemma EnumValue(s: string)
    requires s != [] && forall i :: 0 <= i < |s| ==> 'a' <= s[i] <= 'z' || s[i] == '_'
    ensures OneLine(s) && Lower(Strip(s)) == s
  {}

  lemma CategoryRoundTrip(c: Category)
    ensures OneLine(CategoryValue(c))
    ensures ParseCategory(Some(CategoryValue(c))) == c
  {
    CategoryLetters(c);
    EnumValue(CategoryValue(c));
    CategoryListed(c);
    FindCategoryHit(c, CATEGORIES);
  }

  lemma CategoryLetters(c: Category)
    ensures var v := CategoryValue(c);
      v != [] && forall i :: 0 <= i < |v| ==> 'a' <= v[i] <= 'z' || v[i] == '_'
  {}

  lemma CategoryListed(c: Category)
    ensures c in CATEGORIES
  {}

  lemma RemoteValuesDistinct(a: Remote, b: Remote)
    requires a != b
    ensures RemoteValue(a) != RemoteValue(b)
  {
    assert RemoteValue(a)[0] != RemoteValue(b)[0];
  }

  lemma {:induction false} FindRemoteHit(r: Remote, among: seq<Remote>)
    requires r in among
    ensures FindRemote(RemoteValue(r), among) == r
  {
    if among[0] != r {
      RemoteValuesDistinct(r, among[0]);
      FindRemoteHit(r, among[1..]);
    }
  }

  lemma RemoteLetters(r: Remote)
    ensures var v := RemoteValue(r);
      v != [] && forall i :: 0 <= i < |v| ==> 'a' <= v[i] <= 'z' || v[i] == '_'
    ensures r in REMOTES
  {}

  lemma RemoteRoundTrip(r: Remote)
    ensures OneLine(RemoteValue(r))
    ensures ParseRemote(Some(RemoteValue(r))) == r
  {
    RemoteLetters(r);
    EnumValue(RemoteValue(r));
    FindRemoteHit(r, REMOTES);
  }

  lemma EnumRoundTrip(item: Item)
    ensures ParseCategory(Slot(item, 2)) == item.category
    ensures ParseRemote(Slot(item, 4)) == if item.remote.Some? then item.remote.value else Unknown
  {
    CategoryRoundTrip(item.category);
    if item.remote.Some? {
      RemoteRoundTrip(item.remote.value);
    }
  }

  // ---- The round trip ----------------------------------------------------

  /** What the text fields of a row must be for every printed slot to be one clean line. */
  predicate CleanText(item: Item) {
    && OneLine(item.title)
    && OptOneLine(Truthy(item.organization)) && OptOneLine(Truthy(item.country)) && OptOneLine(Truthy(item.summary))
    && (forall s :: s in item.required ==> Skill(s))
    && (forall s :: s in item.preferred ==> Skill(s))
    && CleanCompensation(item.compensation)
    && VisibleDeadline(item)
  }

  lemma {:induction false} JoinedSkills(skills: seq<string>)
    requires skills != [] && forall s :: s in skills ==> Skill(s)
    ensures OneLine(Join(skills, ", "))
    ensures ParseCsv(Some(Join(skills, ", "))) == skills
  {
    CsvRoundTrip(skills);
    JoinedOneLine(skills);
  }

  lemma {:induction false} JoinedOneLine(skills: seq<string>)
    requires skills != [] && forall s :: s in skills ==> Skill(s)
    ensures OneLine(Join(skills, ", "))
  {
    assert skills[0] in skills;
    if |skills| > 1 {
      JoinedOneLine(skills[1..]);
      var head, tail := skills[0] + ", ", Join(skills[1..], ", ");
      assert Join(skills, ", ") == head + tail;
      assert (head + tail)[|head| + |tail| - 1] == tail[|tail| - 1];
    }
  }

  lemma SkillsRoundTrip(skills: seq<string>)
    requires forall s :: s in skills ==> Skill(s)
    ensures OptOneLine(SkillsSlot(skills)) && ParseCsv(SkillsSlot(skills)) == skills
  {
    if skills != [] {
      JoinedSkills(skills);
    }
  }

  lemma {:induction false} DigitsOneLine(n: nat)
    ensures OneLine(Digits(n))
  {
    DigitsRoundTrip(n);
    var d := Digits(n);
    assert d[0] in d && d[|d| - 1] in d;
  }

  lemma CompensationOneLine(c: Compensation)
    requires CleanCompensation(c) && c.min.Some?
    ensures OneLine(CompensationText(c))
  {
    DigitsOneLine(c.min.value);
    DigitsOneLine(c.max.value);
    var low, high, currency, period := Digits(c.min.value), Digits(c.max.value), c.currency.value, c.period.value;
    assert '\n' !in low && '\n' !in high && '\n' !in currency && '\n' !in period;
    var tail := " " + currency + " per " + period;
    assert '\n' !in tail && tail[|tail| - 1] == period[|period| - 1] && period[|period| - 1] in period;
    OneLineConcat(low, "-" + (high + tail));
  }

  lemma OneLineConcat(a: string, b: string)
    requires OneLine(a) && b != [] && '\n' !in b && !IsSpace(b[|b| - 1])
    ensures OneLine(a + b)
  {}

  lemma CompensationSlotRoundTrip(c: Compensation)
    requires CleanCompensation(c)
    ensures OptOneLine(CompensationSlot(c))
    ensures ParseCompensation(CompensationSlot(c)) == c
  {
    if c.min.Some? {
      CompensationRoundTrip(c);
      CompensationOneLine(c);
    }
  }

  lemma CleanIsVisible(s: Option<string>)
    requires OptOneLine(s)
    ensures OptVisible(s) && OptStrip(s) == s
  {
    if s.Some? {
      LStripShape(s.value);
    }
  }

  /** All slots of a clean row are trimmed lines, but for the padding of the deadline. */
  lemma SlotIsClean(item: Item, i: nat)
    requires CleanText(item) && i < 10
    ensures i != 5 ==> OptOneLine(Slot(item, i))
  {
    if i == 2 {
      CategoryRoundTrip(item.category);
    } else if i == 4 {
      if item.remote.Some? {
        RemoteRoundTrip(item.remote.value);
      }
    } else if i == 6 {
      SkillsRoundTrip(item.required);
    } else if i == 7 {
      SkillsRoundTrip(item.preferred);
    } else if i == 8 {
      CompensationSlotRoundTrip(item.compensation);
    }
  }

  lemma SlotsAreVisible(item: Item)
    requires CleanText(item)
    ensures VisibleSlots(item)
    ensures forall i :: 0 <= i < 10 && i != 5 ==> OptStrip(Slot(item, i)) == Slot(item, i)
  {
    forall i | 0 <= i < 10
      ensures OptVisible(Slot(item, i)) && (i != 5 ==> OptStrip(Slot(item, i)) == Slot(item, i))
    {
      if i != 5 {
        SlotIsClean(item, i);
        CleanIsVisible(Slot(item, i));
      }
    }
  }

  /** What the extractor finds of a row: its slots, the deadline stripped. */
  function Slots(item: Item): Found {
    Found(
      Slot(item, 0), Slot(item, 1), Slot(item, 2), Slot(item, 3), Slot(item, 4),
      OptStrip(Slot(item, 5)), Slot(item, 6), Slot(item, 7), Slot(item, 8), Slot(item, 9))
  }

  lemma FindSlots(item: Item, pairs: seq<(string, string)>)
    requires forall i :: 0 <= i < 10 ==>
      Lookup(pairs, KEYS[i]) == if i == 5 then OptStrip(Slot(item, 5)) else Slot(item, i)
    ensures Find(pairs) == Slots(item)
  {
    assert KEYS[0] == "title" && KEYS[1] == "organization" && KEYS[2] == "category" && KEYS[3] == "country";
    assert KEYS[4] == "remote" && KEYS[5] == "deadline" && KEYS[6] == "required skills";
    assert KEYS[7] == "preferred skills" && KEYS[8] == "compensation" && KEYS[9] == "summary";
  }

  lemma FindRendered(item: Item)
    requires CleanText(item)
    ensures Find(FindAll(Render(item), true)) == Slots(item)
  {
    SlotsAreVisible(item);
    var pairs := FindAll(Render(item), true);
    forall i | 0 <= i < 10
      ensures Lookup(pairs, KEYS[i]) == if i == 5 then OptStrip(Slot(item, 5)) else Slot(item, i)
    {
      ScanRendered(item, i);
    }
    FindSlots(item, pairs);
  }

  lemma TextRoundTrip(item: Item, isoDate: IsoDate)
    requires OneLine(item.title) && VisibleDeadline(item)
    ensures ParseTitle(Slot(item, 0)) == item.title
    ensures ParseDeadline(OptStrip(Slot(item, 5)), isoDate) == StrippedDate(item, isoDate)
  {
    assert Slot(item, 0) == Some(item.title);
    assert Slot(item, 5) == Truthy(item.deadline);
    DateRoundTrip(item, isoDate);
  }

  lemma DateRoundTrip(item: Item, isoDate: IsoDate)
    requires VisibleDeadline(item)
    ensures ParseDeadline(OptStrip(Truthy(item.deadline)), isoDate) == StrippedDate(item, isoDate)
  {
    if Truthy(item.deadline).Some? {
      StrippedTwice(item.deadline.value, isoDate);
    }
  }

  lemma StrippedTwice(deadline: string, isoDate: IsoDate)
    requires Visible(deadline)
    ensures ParseDeadline(Some(Strip(deadline)), isoDate) == isoDate(Strip(deadline))
  {
    LStripShape(deadline);
  }

  /** The date of the deadline without its padding. */
  function StrippedDate(item: Item, isoDate: IsoDate): Option<int> {
    if Truthy(item.deadline).Some? then isoDate(Strip(item.deadline.value)) else None
  }

  lemma ListRoundTrip(item: Item)
    requires CleanText(item)
    ensures ParseCsv(Slot(item, 6)) == item.required && ParseCsv(Slot(item, 7)) == item.preferred
    ensures ParseCompensation(Slot(item, 8)) == item.compensation
  {
    assert Slot(item, 6) == SkillsSlot(item.required);
    assert Slot(item, 7) == SkillsSlot(item.preferred);
    assert Slot(item, 8) == CompensationSlot(item.compensation);
    BothSkills(item.required, item.preferred);
    CompensationSlotRoundTrip(item.compensation);
  }

  lemma BothSkills(required: seq<string>, preferred: seq<string>)
    requires (forall s :: s in required ==> Skill(s)) && (forall s :: s in preferred ==> Skill(s))
    ensures ParseCsv(SkillsSlot(required)) == required && ParseCsv(SkillsSlot(preferred)) == preferred
  {
    SkillsRoundTrip(required);
    SkillsRoundTrip(preferred);
  }

  /** Interpreting the slots of a clean row gives its label, up to empty text fields, the default
      organisation and the padding of the deadline. */
  lemma InterpretSlots(item: Item, isoDate: IsoDate)
    requires CleanText(item)
    ensures Interpret(Slots(item), isoDate) == Recovered(item, isoDate)
  {
    EnumRoundTrip(item);
    TextRoundTrip(item, isoDate);
    ListRoundTrip(item);
  }

  function Recovered(item: Item, isoDate: IsoDate): Extraction {
    ToLabel(item, isoDate).(
      organization := if Truthy(item.organization).Some? then item.organization else Some("Unknown"),
      deadline := StrippedDate(item, isoDate),
        country := Truthy(item.country), summary := Truthy(item.summary))
  }

  lemma ExtractClean(item: Item, isoDate: IsoDate)
    requires CleanText(item)
    ensures Extract(Render(item), isoDate) == Recovered(item, isoDate)
  {
    FindRendered(item);
    InterpretSlots(item, isoDate);
  }

  lemma {:induction false} FindCategorySound(s: string, among: seq<Category>)
    ensures FindCategory(s, among) == Other || CategoryValue(FindCategory(s, among)) == s
  {
    if among != [] {
      FindCategorySound(s, among[1..]);
    }
  }

  /** A category is read exactly from its value in any case and with any padding; everything else is `Other`. */
  lemma CategoryIff(raw: Option<string>, c: Category)
    requires c != Other
    ensures ParseCategory(raw) == c <==> raw.Some? && Lower(Strip(raw.value)) == CategoryValue(c)
  {
    CategoryListed(c);
    FindCategoryHit(c, CATEGORIES);
    CategoryLetters(c);
    if raw.Some? {
      FindCategorySound(Lower(Strip(raw.value)), CATEGORIES);
    }
  }

  lemma {:induction false} FindRemoteSound(s: string, among: seq<Remote>)
    ensures FindRemote(s, among) == Unknown || RemoteValue(FindRemote(s, among)) == s
  {
    if among != [] {
      FindRemoteSound(s, among[1..]);
    }
  }

  lemma RemoteIff(raw: Option<string>, r: Remote)
    requires r != Unknown
    ensures ParseRemote(raw) == r <==> raw.Some? && Lower(Strip(raw.value)) == RemoteValue(r)
  {
    RemoteLetters(r);
    FindRemoteHit(r, REMOTES);
    if raw.Some? {
      FindRemoteSound(Lower(Strip(raw.value)), REMOTES);
    }
  }

  /** A text without any labelled line gives the defaults. */
  lemma NothingFound(text: string, isoDate: IsoDate)
    requires FindAll(text, true) == []
    ensures Extract(text, isoDate) == Extraction(
      "Unknown opportunity", None, Other, None, None, Unknown, None, [], [], NO_COMPENSATION)
  {}

  /** Every value found in a text is free of line ends. */
  lemma {:induction false} FoundValues(s: string, bol: bool)
    ensures forall i :: 0 <= i < |FindAll(s, bol)| ==> '\n' !in FindAll(s, bol)[i].1
    decreases |s|
  {
    if s != [] {
      if bol && MatchLine(s).Some? {
        MatchValue(s);
        FoundValues(s[MatchLine(s).value.end..], false);
      } else {
        FoundValues(s[1..], s[0] == '\n');
      }
    }
  }

  /** Every looked-up value is trimmed and free of line ends. */
  lemma {:induction false} LookupClean(pairs: seq<(string, string)>, key: string)
    requires forall i :: 0 <= i < |pairs| ==> '\n' !in pairs[i].1
    ensures Lookup(pairs, key).Some? ==> Trimmed(Lookup(pairs, key).value) && '\n' !in Lookup(pairs, key).value
  {
    if pairs != [] {
      LookupClean(pairs[..|pairs| - 1], key);
    }
  }

  lemma FoundClean(text: string, key: string)
    ensures var v := Lookup(FindAll(text, true), key);
      v.Some? ==> Trimmed(v.value) && '\n' !in v.value
  {
    FoundValues(text, true);
    LookupClean(FindAll(text, true), key);
  }

  lemma FoundSkills(text: string, key: string)
    ensures forall s :: s in ParseCsv(Lookup(FindAll(text, true), key)) ==> Skill(s)
  {
    FoundClean(text, key);
    ParsedCsvIsClean(Lookup(FindAll(text, true), key));
  }

  lemma FoundText(text: string)
    ensures var f := Find(FindAll(text, true));
      && OneLine(ParseTitle(f.title))
      && OptOneLine(Truthy(f.organization)) && OptOneLine(Truthy(f.country)) && OptOneLine(Truthy(f.summary))
  {
    FoundClean(text, "title");
    FoundClean(text, "organization");
    FoundClean(text, "country");
    FoundClean(text, "summary");
    assert OneLine("Unknown opportunity");
  }

  /** Whatever the text, everything the extractor returns is clean. */
  lemma ExtractedIsClean(text: string, isoDate: IsoDate)
    ensures var r := Extract(text, isoDate);
      && OneLine(r.title)
      && OptOneLine(Truthy(r.organization)) && OptOneLine(Truthy(r.country)) && OptOneLine(Truthy(r.summary))
      && (forall s :: s in r.required ==> Skill(s))
      && (forall s :: s in r.preferred ==> Skill(s))
      && CleanCompensation(r.compensation)
  {
    FoundText(text);
    FoundSkills(text, "required skills");
    FoundSkills(text, "preferred skills");
    ParsedCompensationIsClean(Lookup(FindAll(text, true), "compensation"));
  }

  // ---- Schema limits and the whole round trip --------------------------------

  predicate AtMost(s: Option<string>, limit: nat) {
    s.Some? ==> |s.value| <= limit
  }

  /** The length limits of the result schema. */
  predicate WithinLimits(e: Extraction) {
    && 1 <= |e.title| <= 512
    && AtMost(e.organization, 255) && AtMost(e.summary, 2000) && AtMost(e.country, 2)
    && AtMost(e.compensation.currency, 8) && AtMost(e.compensation.period, 16)
  }

  /** Constructing a result raises when a field is too long. */
  function Validated(e: Extraction): Result<Extraction, string> {
    if WithinLimits(e) then Ok(e) else Err("validation error")
  }

  /** The label exists, and extracting the printed row gives it. */
  predicate RoundTrips(item: Item, isoDate: IsoDate) {
    && Validated(ToLabel(item, isoDate)).Ok?
    && Validated(Extract(Render(item), isoDate)) == Validated(ToLabel(item, isoDate))
  }

  /** The text fields, apart from the deadline, are trimmed lines or absent, and the lists and amounts are clean. */
  predicate CleanFields(item: Item) {
    && OneLine(item.title)
    && OptOneLine(Truthy(item.organization)) && OptOneLine(Truthy(item.country)) && OptOneLine(Truthy(item.summary))
    && (forall s :: s in item.required ==> Skill(s))
    && (forall s :: s in item.preferred ==> Skill(s))
    && CleanCompensation(item.compensation)
  }

  lemma FieldsOfLabel(item: Item, isoDate: IsoDate)
    requires Extract(Render(item), isoDate) == ToLabel(item, isoDate)
    ensures CleanFields(item)
  {
    ExtractedIsClean(Render(item), isoDate);
  }

  /**
   Printing a row and extracting it again gives its label exactly for the well-formed rows within the
   schema limits whose deadline means the same with and without its padding: whichever field is not
   well-formed, the extractor returns something else. Whatever the deadline, no row with another
   unclean field survives.
   */
  lemma RoundTripIff(item: Item, isoDate: IsoDate)
    ensures RoundTrips(item, isoDate) ==> CleanFields(item) && WithinLimits(ToLabel(item, isoDate))
    ensures VisibleDeadline(item) ==>
      (RoundTrips(item, isoDate) <==>
        WellFormed(item) && WithinLimits(ToLabel(item, isoDate)) && PaddingIsHarmless(item, isoDate))
  {
    if Extract(Render(item), isoDate) == ToLabel(item, isoDate) {
      FieldsOfLabel(item, isoDate);
    }
    if VisibleDeadline(item) && (Extract(Render(item), isoDate) == ToLabel(item, isoDate) || WellFormed(item)) {
      ExtractClean(item, isoDate);
    }
  }

  /** The failure is real: a skill with a comma in it is read back as two. */
  lemma CommaInSkillSplits(item: Item, isoDate: IsoDate)
    requires item.required == ["C, C++"]
    ensures !RoundTrips(item, isoDate)
  {
    RoundTripIff(item, isoDate);
    assert item.required[0] in item.required;
    assert item.required[0][1] == ',';
  }
}
