/**
 The opaque form of a pagination cursor: its JSON text in unpadded base64url, section 5 of RFC 4648.
 The JSON, UUID, decimal and ISO-date texts are functions given by the caller.
 */
module CursorCodec {
  import opened Wrappers
  import opened Pagination

  type Byte = n: int | 0 <= n < 256

  type Sextet = n: int | 0 <= n < 64

  /** The URL and filename safe alphabet. */
  function CharOf(v: Sextet): char {
    if v < 26 then ('A' as int + v) as char
    else if v < 52 then ('a' as int + v - 26) as char
    else if v < 62 then ('0' as int + v - 52) as char
    else if v == 62 then '-'
    else '_'
  }

  function ValueOf(c: char): Option<Sextet> {
    if 'A' <= c <= 'Z' then Some(c as int - 'A' as int)
    else if 'a' <= c <= 'z' then Some(c as int - 'a' as int + 26)
    else if '0' <= c <= '9' then Some(c as int - '0' as int + 52)
    else if c == '-' then Some(62)
    else if c == '_' then Some(63)
    else None
  }

  lemma CharRoundTrip(v: Sextet)
    ensures ValueOf(CharOf(v)) == Some(v) && CharOf(v) != '='
  {}

  /** The alphabet of section 5 of RFC 4648, in its order. */
  lemma UpperLetters(v: Sextet)
    requires v < 26
    ensures CharOf(v) == "ABCDEFGHIJKLMNOPQRSTUVWXYZ"[v]
  {}

  lemma LowerLetters(v: Sextet)
    requires 26 <= v < 52
    ensures CharOf(v) == "abcdefghijklmnopqrstuvwxyz"[v - 26]
  {}

  lemma DigitsAndMarks(v: Sextet)
    requires 52 <= v
    ensures CharOf(v) == "0123456789-_"[v - 52]
  {}

  // ---- Three bytes as four sextets -----------------------------------------------

  function First(x: int): Sextet
    requires 0 <= x < 256
  {
    x / 4
  }

  function Second(x: int, y: int): Sextet
    requires 0 <= x < 256 && 0 <= y < 256
  {
    x % 4 * 16 + y / 16
  }

  function Third(y: int, z: int): Sextet
    requires 0 <= y < 256 && 0 <= z < 256
  {
    y % 16 * 4 + z / 64
  }

  function Fourth(z: int): Sextet
    requires 0 <= z < 256
  {
    z % 64
  }

  function Byte0(w: int, x: int): Byte
    requires 0 <= w < 64 && 0 <= x < 64
  {
    w * 4 + x / 16
  }

  function Byte1(x: int, y: int): Byte
    requires 0 <= x < 64 && 0 <= y < 64
  {
    x % 16 * 16 + y / 4
  }

  function Byte2(y: int, z: int): Byte
    requires 0 <= y < 64 && 0 <= z < 64
  {
    y % 4 * 64 + z
  }

  lemma Regrouped(x: Byte, y: Byte, z: Byte)
    ensures Byte0(First(x), Second(x, y)) == x
    ensures Byte1(Second(x, y), Third(y, z)) == y
    ensures Byte2(Third(y, z), Fourth(z)) == z
  {}

  /** The four sextets are the same 24-bit number, most significant part first. */
  lemma GroupIsPositional(x: Byte, y: Byte, z: Byte)
    ensures First(x) * 262144 + Second(x, y) * 4096 + Third(y, z) * 64 + Fourth(z) == x * 65536 + y * 256 + z
  {}

  /** `urlsafe_b64encode`, with padding. */
  function EncodePadded(b: seq<Byte>): string {
    if b == [] then ""
    else if |b| == 1 then EncodeOne(b[0])
    else if |b| == 2 then EncodeTwo(b[0], b[1])
    else EncodeGroup(b[0], b[1], b[2]) + EncodePadded(b[3..])
  }

  function EncodeOne(x: Byte): string {
    [CharOf(First(x)), CharOf(Second(x, 0)), '=', '=']
  }

  function EncodeTwo(x: Byte, y: Byte): string {
    [CharOf(First(x)), CharOf(Second(x, y)), CharOf(Third(y, 0)), '=']
  }

  function EncodeGroup(x: Byte, y: Byte, z: Byte): string {
    [CharOf(First(x)), CharOf(Second(x, y)), CharOf(Third(y, z)), CharOf(Fourth(z))]
  }

  /** `rstrip("=")`. */
  function StripPadding(s: string): string {
    if |s| >= 1 && s[|s| - 1] == '=' then StripPadding(s[..|s| - 1]) else s
  }

  /** As many padding characters as make the length a multiple of four. */
  function AddPadding(s: string): string {
    s + match |s| % 4 case 0 => "" case 1 => "===" case 2 => "==" case _ => "="
  }

  /** One full group. */
  function DecodeGroup(a: char, b: char, c: char, d: char): Option<seq<Byte>> {
    match (ValueOf(a), ValueOf(b), ValueOf(c), ValueOf(d))
    case (Some(w), Some(x), Some(y), Some(z)) => Some([Byte0(w, x), Byte1(x, y), Byte2(y, z)])
    case _ => None
  }

  /** The last group, which may be padded. */
  function DecodeLast(a: char, b: char, c: char, d: char): Option<seq<Byte>> {
    if d != '=' then DecodeGroup(a, b, c, d)
    else
      match (ValueOf(a), ValueOf(b), ValueOf(c))
      case (Some(w), Some(x), Some(y)) => Some([Byte0(w, x), Byte1(x, y)])
      case (Some(w), Some(x), None) => if c == '=' then Some([Byte0(w, x)]) else None
      case _ => None
  }

  /** `urlsafe_b64decode` of text over the alphabet. */
  function DecodePadded(s: string): Option<seq<Byte>> {
    if s == "" then Some([])
    else if |s| < 4 then None
    else if |s| == 4 then DecodeLast(s[0], s[1], s[2], s[3])
    else
      match (DecodeGroup(s[0], s[1], s[2], s[3]), DecodePadded(s[4..]))
      case (Some(x), Some(rest)) => Some(x + rest)
      case _ => None
  }

  lemma GroupRoundTrip(x: Byte, y: Byte, z: Byte)
    ensures var s := EncodeGroup(x, y, z);
      DecodeGroup(s[0], s[1], s[2], s[3]) == Some([x, y, z]) && s[3] != '='
  {
    CharRoundTrip(First(x));
    CharRoundTrip(Second(x, y));
    CharRoundTrip(Third(y, z));
    CharRoundTrip(Fourth(z));
    Regrouped(x, y, z);
  }

  lemma DecodeOne(w: Sextet, x: Sextet)
    ensures DecodeLast(CharOf(w), CharOf(x), '=', '=') == Some([Byte0(w, x)])
  {
    CharRoundTrip(w);
    CharRoundTrip(x);
  }

  lemma DecodeTwo(w: Sextet, x: Sextet, y: Sextet)
    ensures DecodeLast(CharOf(w), CharOf(x), CharOf(y), '=') == Some([Byte0(w, x), Byte1(x, y)])
  {
    CharRoundTrip(w);
    CharRoundTrip(x);
    CharRoundTrip(y);
  }

  lemma DecodeFour(a: char, b: char, c: char, d: char)
    ensures DecodePadded([a, b, c, d]) == DecodeLast(a, b, c, d)
  {}

  lemma OneByte(x: Byte)
    ensures DecodePadded(EncodeOne(x)) == Some([x])
  {
    Regrouped(x, 0, 0);
    DecodeFour(CharOf(First(x)), CharOf(Second(x, 0)), '=', '=');
    DecodeOne(First(x), Second(x, 0));
  }

  lemma TwoBytes(x: Byte, y: Byte)
    ensures DecodePadded(EncodeTwo(x, y)) == Some([x, y])
  {
    Regrouped(x, y, 0);
    DecodeFour(CharOf(First(x)), CharOf(Second(x, y)), CharOf(Third(y, 0)), '=');
    DecodeTwo(First(x), Second(x, y), Third(y, 0));
  }

  lemma ShortRoundTrip(b: seq<Byte>)
    requires 1 <= |b| <= 2
    ensures DecodePadded(EncodePadded(b)) == Some(b) && |EncodePadded(b)| == 4
  {
    if |b| == 1 {
      OneByte(b[0]);
      assert b == [b[0]];
    } else {
      TwoBytes(b[0], b[1]);
      assert b == [b[0], b[1]];
    }
  }

  lemma {:induction false} PaddedRoundTrip(b: seq<Byte>)
    ensures DecodePadded(EncodePadded(b)) == Some(b)
    ensures |EncodePadded(b)| % 4 == 0 && (b != [] ==> |EncodePadded(b)| >= 4)
    decreases |b|
  {
    if b == [] {
    } else if |b| <= 2 {
      ShortRoundTrip(b);
    } else {
      PaddedRoundTrip(b[3..]);
      LongRoundTrip(b[0], b[1], b[2], b[3..], EncodePadded(b[3..]));
      assert b == [b[0], b[1], b[2]] + b[3..];
    }
  }

  lemma LongRoundTrip(x: Byte, y: Byte, z: Byte, more: seq<Byte>, rest: string)
    requires |rest| % 4 == 0 && DecodePadded(rest) == Some(more)
    ensures DecodePadded(EncodeGroup(x, y, z) + rest) == Some([x, y, z] + more)
    ensures |EncodeGroup(x, y, z) + rest| % 4 == 0
  {
    GroupRoundTrip(x, y, z);
    DecodeCons(EncodeGroup(x, y, z), rest);
  }

  lemma DecodeCons(group: string, rest: string)
    requires |group| == 4 && |rest| % 4 == 0 && group[3] != '='
    ensures DecodePadded(group + rest) ==
      match (DecodeGroup(group[0], group[1], group[2], group[3]), DecodePadded(rest))
      case (Some(x), Some(y)) => Some(x + y)
      case _ => None
  {
    assert (group + rest)[4..] == rest;
    var x := DecodeGroup(group[0], group[1], group[2], group[3]);
    if rest == "" && x.Some? {
      assert x.value + [] == x.value;
    }
  }

  /** The padding of an encoding is determined by the number of bytes. */
  function Padding(n: nat): string {
    match n % 3 case 0 => "" case 1 => "==" case _ => "="
  }

  /** An encoding is padding behind a text that does not end in padding. */
  predicate PadsTo(s: string, core: string, n: nat) {
    && s == core + Padding(n)
    && (core == "" || core[|core| - 1] != '=')
    && |core| % 4 == (match n % 3 case 0 => 0 case 1 => 2 case _ => 3)
  }

  lemma OnePads(x: Byte)
    ensures PadsTo(EncodeOne(x), [CharOf(First(x)), CharOf(Second(x, 0))], 1)
  {
    CharRoundTrip(Second(x, 0));
  }

  lemma TwoPads(x: Byte, y: Byte)
    ensures PadsTo(EncodeTwo(x, y), [CharOf(First(x)), CharOf(Second(x, y)), CharOf(Third(y, 0))], 2)
  {
    CharRoundTrip(Third(y, 0));
  }

  lemma GroupPads(group: string, rest: string, core: string, n: nat)
    requires |group| == 4 && group[3] != '=' && PadsTo(rest, core, n)
    ensures PadsTo(group + rest, group + core, n + 3)
  {
    assert (n + 3) % 3 == n % 3;
    assert group + (core + Padding(n)) == (group + core) + Padding(n);
  }

  lemma {:induction false} EncodingPads(b: seq<Byte>) returns (core: string)
    ensures PadsTo(EncodePadded(b), core, |b|)
    decreases |b|
  {
    if b == [] {
      core := "";
    } else if |b| == 1 {
      OnePads(b[0]);
      core := [CharOf(First(b[0])), CharOf(Second(b[0], 0))];
    } else if |b| == 2 {
      TwoPads(b[0], b[1]);
      core := [CharOf(First(b[0])), CharOf(Second(b[0], b[1])), CharOf(Third(b[1], 0))];
    } else {
      var rest := EncodingPads(b[3..]);
      GroupRoundTrip(b[0], b[1], b[2]);
      var group := EncodeGroup(b[0], b[1], b[2]);
      GroupPads(group, EncodePadded(b[3..]), rest, |b[3..]|);
      core := group + rest;
    }
  }

  lemma StripOne(s: string)
    ensures StripPadding(s + "=") == StripPadding(s)
  {
    assert (s + "=")[..|s|] == s;
  }

  lemma StripCore(core: string, n: nat)
    requires core == "" || core[|core| - 1] != '='
    ensures StripPadding(core + Padding(n)) == core
  {
    StripOne(core);
    StripOne(core + "=");
    assert core + "" == core;
    assert (core + "=") + "=" == core + "==";
    assert StripPadding(core) == core;
  }

  /** Removing the padding loses nothing: it is restored from the length. */
  lemma PaddingRestored(b: seq<Byte>)
    ensures AddPadding(StripPadding(EncodePadded(b))) == EncodePadded(b)
  {
    var core := EncodingPads(b);
    StripCore(core, |b|);
  }

  /** The textual forms below the base64 layer. */
  datatype Texts = Texts(
    dumps: (string, string) -> seq<Byte>,
    loads: seq<Byte> -> Option<(string, string)>,
    idText: nat -> string,
    idOf: string -> Option<nat>,
    valueText: (SortKey, real) -> string,
    valueOf: (SortKey, string) -> Option<real>)

  /** The texts of one key read back: the JSON object, the row id and the sort value. */
  predicate ReadsBack(k: Key, sort: SortKey, t: Texts) {
    var value, id := t.valueText(sort, k.value), t.idText(k.id);
    && t.loads(t.dumps(value, id)) == Some((value, id))
    && t.idOf(id) == Some(k.id)
    && t.valueOf(sort, value) == Some(k.value)
  }

  function Encode(k: Key, sort: SortKey, t: Texts): string {
    StripPadding(EncodePadded(t.dumps(t.valueText(sort, k.value), t.idText(k.id))))
  }

  /** Anything malformed is the validation error. */
  function Decode(raw: string, sort: SortKey, t: Texts): Result<Key, string> {
    match DecodePadded(AddPadding(raw))
    case None => Err("Malformed pagination cursor")
    case Some(bytes) =>
      match t.loads(bytes)
      case None => Err("Malformed pagination cursor")
      case Some(pair) =>
        match (t.valueOf(sort, pair.0), t.idOf(pair.1))
        case (Some(value), Some(id)) => Ok(Key(value, id))
        case _ => Err("Malformed pagination cursor")
  }

  /** A cursor survives being handed to the client and back exactly when its texts read back to the key. */
  lemma CursorRoundTrip(k: Key, sort: SortKey, t: Texts)
    ensures ReadsBack(k, sort, t) ==> Decode(Encode(k, sort, t), sort, t) == Ok(k)
    ensures Decode(Encode(k, sort, t), sort, t) == Ok(k) <==>
      match t.loads(t.dumps(t.valueText(sort, k.value), t.idText(k.id)))
      case None => false
      case Some(pair) => t.valueOf(sort, pair.0) == Some(k.value) && t.idOf(pair.1) == Some(k.id)
  {
    var bytes := t.dumps(t.valueText(sort, k.value), t.idText(k.id));
    PaddingRestored(bytes);
    PaddedRoundTrip(bytes);
  }

  // ---- Requests with an opaque cursor ------------------------------------------

  /** What a client receives: rows, the cursor of the next page, and whether there is one. */
  datatype Served = Served(rows: seq<Row>, next: Option<string>, hasMore: bool)

  function Serve(page: Page, sort: SortKey, t: Texts): Served {
    Served(page.rows, if page.next.Some? then Some(Encode(page.next.value, sort, t)) else None, page.hasMore)
  }

  /** The position a request asks to continue from; a malformed cursor is an error. */
  function Position(raw: Option<string>, sort: SortKey, t: Texts): Result<Option<Key>, string> {
    match raw
    case None => Ok(None)
    case Some(text) =>
      match Decode(text, sort, t)
      case Ok(k) => Ok(Some(k))
      case Err(e) => Err(e)
  }

  /** One request as the client makes it. */
  method ServeOpportunities(table: Table, limit: nat, raw: Option<string>, q: Query, t: Texts)
    returns (r: Result<Served, string>)
    ensures r.Err? <==> raw.Some? && Decode(raw.value, q.sort, t).Err?
    ensures r.Ok? ==> r.value == Serve(ListPage(table, limit, Position(raw, q.sort, t).value, q), q.sort, t)
  {
    var cursor: Option<Key> := None;
    if raw.Some? {
      var decoded := Decode(raw.value, q.sort, t);
      if decoded.Err? {
        return Err(decoded.error);
      }
      cursor := Some(decoded.value);
    }
    var page := ListOpportunities(table, limit, cursor, q);
    r := Ok(Serve(page, q.sort, t));
  }

  /** Handing the served cursor back continues at the position the page ended at. */
  lemma ServedCursorContinues(page: Page, sort: SortKey, t: Texts)
    requires page.next.Some? ==> ReadsBack(page.next.value, sort, t)
    ensures Position(Serve(page, sort, t).next, sort, t) == Ok(page.next)
  {
    if page.next.Some? {
      CursorRoundTrip(page.next.value, sort, t);
    }
  }
}
