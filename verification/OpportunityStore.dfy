/** The opportunity table, its event log, and the operations on both. */
module OpportunityStore {
  import opened Wrappers
  import opened Vocabulary
  import opened Lifecycle
  import opened Freshness
  import opened Rounding
  import Dedup

  /** The columns the operations read or write. A row is identified by its position; rows are only appended. */
  datatype Row = Row(
    canonicalUrl: string, sourceUrl: string, contentHash: string, title: string,
    organization: Option<string>, domain: Option<string>, embedding: Option<Vector>, facts: Facts, freshness: int,
    status: Status, duplicateOf: Option<nat>)

  type Vector = seq<real>

  /** An event of one row; only transitions record where they came from and went. */
  datatype Event = Event(row: nat, kind: EventKind, change: Option<Change>)

  datatype Table = Table(rows: seq<Row>, events: seq<Event>)

  const EMPTY := Table([], [])

  /** A source payload; dates are parsed already. */
  datatype Raw = Raw(
    title: string, sourceUrl: string, organization: Option<string>, domain: Option<string>,
    description: Option<string>, category: Category, deadline: Option<int>, postedAt: Option<int>)

  /** Text and URL normalisation, the content hash, case folding, vector similarity and the half-life curve. */
  datatype Env = Env(
    normalize: string -> Option<string>,
    canonicalize: string -> Option<string>,
    fingerprint: (string, Option<string>, Option<string>) -> string,
    fold: string -> string,
    lower: string -> string,
    cosine: (Vector, Vector) -> real,
    decay: Decay)

  function NormalizeOpt(env: Env, s: Option<string>): Option<string> {
    if s.Some? then env.normalize(s.value) else None
  }

  /** What duplicate detection needs. */
  datatype Candidate = Candidate(
    title: string, url: string, contentHash: string, organization: Option<string>, domain: Option<string>,
    embedding: Option<Vector>)

  function CandidateOf(raw: Raw, env: Env): Option<Candidate> {
    match env.normalize(raw.title)
    case None => None
    case Some(title) =>
      match env.canonicalize(raw.sourceUrl)
      case None => None
      case Some(url) =>
        var organization := NormalizeOpt(env, raw.organization);
        Some(Candidate(
          title, url, env.fingerprint(title, organization, NormalizeOpt(env, raw.description)),
          organization, NormalizeOpt(env, raw.domain), None))
  }

  // ---- Duplicate detection -------------------------------------------------------

  datatype Probe = ByUrl | ByHash | ByTitle | ByEmbedding

  datatype Match = Match(row: nat, probe: Probe, similarity: int)

  predicate UrlHit(r: Row, c: Candidate) {
    r.status != Duplicate && (r.canonicalUrl == c.url || r.sourceUrl == c.url)
  }

  predicate HashHit(r: Row, c: Candidate) {
    r.status != Duplicate && r.contentHash == c.contentHash
  }

  /** Rows of the same organisation or domain. */
  predicate TitleCandidate(r: Row, c: Candidate, env: Env) {
    && r.status != Duplicate
    && ((c.organization.Some? && r.organization.Some?
      && env.lower(r.organization.value) == env.fold(c.organization.value))
      || (c.domain.Some? && r.domain.Some? && env.lower(r.domain.value) == env.fold(c.domain.value)))
  }

  const CANDIDATE_LIMIT := 200

  /** A result set of the title query: candidate rows in any order, all of them unless there are too many. */
  ghost predicate IsTitleScan(scan: seq<nat>, rows: seq<Row>, c: Candidate, env: Env) {
    && |scan| <= CANDIDATE_LIMIT
    && (forall i :: i in scan ==> i < |rows| && TitleCandidate(rows[i], c, env))
    && (|scan| < CANDIDATE_LIMIT ==> forall i :: 0 <= i < |rows| && TitleCandidate(rows[i], c, env) ==> i in scan)
  }

  function ScannedRow(i: nat, rows: seq<Row>, c: Candidate, env: Env): Dedup.Scanned {
    if i < |rows| then
      var left, right := env.fold(c.title), env.fold(rows[i].title);
      Dedup.Scanned(i, Dedup.TitlesCompatible(left, right), Dedup.Similarity(left, right))
    else Dedup.Scanned(i, false, 0.0)
  }

  const TITLE_SIMILARITY_THRESHOLD := 0.62

  function ScannedRows(scan: seq<nat>, rows: seq<Row>, c: Candidate, env: Env): (r: seq<Dedup.Scanned>)
    ensures |r| == |scan|
  {
    seq(|scan|, k requires 0 <= k < |scan| => ScannedRow(scan[k], rows, c, env))
  }

  const EMBEDDING_SIMILARITY_THRESHOLD := 0.92

  /** Rows with a vector, for a candidate that has one. */
  predicate EmbeddingCandidate(r: Row, c: Candidate) {
    r.status != Duplicate && r.embedding.Some? && c.embedding.Some? && c.embedding.value != []
  }

  /** A result set of the embedding query. */
  ghost predicate IsEmbeddingScan(scan: seq<nat>, rows: seq<Row>, c: Candidate) {
    && |scan| <= CANDIDATE_LIMIT
    && (forall i :: i in scan ==> i < |rows| && EmbeddingCandidate(rows[i], c))
    && (|scan| < CANDIDATE_LIMIT ==> forall i :: 0 <= i < |rows| && EmbeddingCandidate(rows[i], c) ==> i in scan)
  }

  function ScannedVector(i: nat, rows: seq<Row>, c: Candidate, env: Env): Dedup.Scanned {
    if i < |rows| && EmbeddingCandidate(rows[i], c) then
      Dedup.Scanned(i, true, env.cosine(c.embedding.value, rows[i].embedding.value))
    else Dedup.Scanned(i, false, 0.0)
  }

  function ScannedVectors(scan: seq<nat>, rows: seq<Row>, c: Candidate, env: Env): (r: seq<Dedup.Scanned>)
    ensures |r| == |scan|
  {
    seq(|scan|, k requires 0 <= k < |scan| => ScannedVector(scan[k], rows, c, env))
  }

  predicate PickedMatch(scanned: seq<Dedup.Scanned>, threshold: real, m: Match, k: nat, b: nat)
    requires k < |scanned| && b < |scanned|
  {
    Dedup.Picked(scanned, threshold, Dedup.Best(m.row, m.similarity), k, b)
  }

  /** Some scanned row is compatible and reaches the threshold. */
  ghost predicate Fires(scanned: seq<Dedup.Scanned>, threshold: real) {
    exists k :: 0 <= k < |scanned| && Dedup.Eligible(scanned[k], threshold)
  }

  /** A similarity probe's answer on a result set: the best compatible row over the threshold, if any. */
  ghost predicate IsBest(m: Option<Match>, probe: Probe, scanned: seq<Dedup.Scanned>, threshold: real) {
    && (m.Some? <==> Fires(scanned, threshold))
    && (m.Some? ==>
      && m.value.probe == probe
      && exists k, b :: 0 <= k < |scanned| && 0 <= b < |scanned| && PickedMatch(scanned, threshold, m.value, k, b))
  }

  /** The answer of the title probe, or of the embedding probe when that one has none. */
  ghost predicate IsSimilar(
    m: Option<Match>, titles: seq<nat>, vectors: seq<nat>, rows: seq<Row>, c: Candidate, env: Env) {
    var byTitle := ScannedRows(titles, rows, c, env);
    && IsTitleScan(titles, rows, c, env)
    && IsEmbeddingScan(vectors, rows, c)
    && if Fires(byTitle, TITLE_SIMILARITY_THRESHOLD) then IsBest(m, ByTitle, byTitle, TITLE_SIMILARITY_THRESHOLD)
       else IsBest(m, ByEmbedding, ScannedVectors(vectors, rows, c, env), EMBEDDING_SIMILARITY_THRESHOLD)
  }

  /** What the probes may answer: the first probe that hits decides, and any of its hits may be picked. */
  ghost predicate IsMatch(m: Option<Match>, rows: seq<Row>, c: Candidate, env: Env) {
    if exists i :: 0 <= i < |rows| && UrlHit(rows[i], c) then
      m.Some? && m.value.probe == ByUrl && m.value.row < |rows| && UrlHit(rows[m.value.row], c)
    else if exists i :: 0 <= i < |rows| && HashHit(rows[i], c) then
      m.Some? && m.value.probe == ByHash && m.value.row < |rows| && HashHit(rows[m.value.row], c)
    else
      exists titles, vectors :: IsSimilar(m, titles, vectors, rows, c, env)
  }

  // ---- Operations on the table ------------------------------------------------------

  function NewFacts(raw: Raw, now: int): Facts {
    Facts(raw.category, raw.deadline, raw.postedAt, Some(now), None, None)
  }

  /** The row an insert writes; its expiry is fixed here. */
  function NewRow(c: Candidate, raw: Raw, m: Option<Match>, now: int, env: Env): Row {
    var a := Assess(NewFacts(raw, now), now, env.decay);
    Row(c.url, c.url, c.contentHash, c.title, c.organization, c.domain, None,
      NewFacts(raw, now).(lastVerifiedAt := Some(now), expiresAt := a.expiresAt), a.score,
      if m.Some? then Duplicate else if a.isExpired then Expired else Discovered,
      if m.Some? then Some(m.value.row) else None)
  }

  function InsertEvents(i: nat, r: Row): seq<Event> {
    [Event(i, EvDiscovered, None)] +
      if r.status == Duplicate then [Event(i, EvDeduplicated, None)]
      else if r.status == Expired then [Event(i, EvExpired, None)]
      else []
  }

  predicate HashTaken(t: Table, hash: string) {
    exists i :: 0 <= i < |t.rows| && t.rows[i].contentHash == hash
  }

  datatype Outcome = Created | Merged | FlaggedDuplicate | Rejected | IntegrityError

  function IngestOutcome(t: Table, c: Option<Candidate>, m: Option<Match>): Outcome {
    if c.None? then Outcome.Rejected
    else if m.Some? && m.value.probe in {ByUrl, ByHash} then Merged
    else if HashTaken(t, c.value.contentHash) then IntegrityError
    else if m.Some? then FlaggedDuplicate
    else Created
  }

  function Revalidated(r: Row, now: int, env: Env): Row {
    var facts := r.facts.(lastVerifiedAt := Some(now));
    r.(facts := facts, freshness := Assess(facts, now, env.decay).score)
  }

  /** Ingest, given what the probes answered; a violated unique constraint aborts and changes nothing. */
  function Ingest(t: Table, raw: Raw, m: Option<Match>, now: int, env: Env): Table
    requires m.Some? ==> m.value.row < |t.rows|
  {
    var c := CandidateOf(raw, env);
    match IngestOutcome(t, c, m)
    case Rejected => t
    case IntegrityError => t
    case Merged =>
      var i := m.value.row;
      Table(t.rows[i := Revalidated(t.rows[i], now, env)], t.events + [Event(i, EvRevalidated, None)])
    case _ =>
      var r := NewRow(c.value, raw, m, now, env);
      Table(t.rows + [r], t.events + InsertEvents(|t.rows|, r))
  }

  function Refreshed(r: Row, a: Assessment): Row {
    r.(freshness := a.score, facts := r.facts.(expiresAt := a.expiresAt))
  }

  /** Refresh: recompute freshness, and expire an active row that is past its date. */
  function Refresh(t: Table, i: nat, now: int, env: Env): Table
    requires i < |t.rows|
  {
    var a := Assess(t.rows[i].facts, now, env.decay);
    var r := Refreshed(t.rows[i], a);
    if a.isExpired && r.status !in INACTIVE then
      Table(t.rows[i := r.(status := Expired)],
        t.events + [Event(i, EntryEvent(Expired), Some(Change(r.status, Expired)))])
    else Table(t.rows[i := r], t.events + [Event(i, EvRevalidated, None)])
  }

  /** A status change; an unchanged status and an illegal move change nothing. */
  function SetStatus(t: Table, i: nat, target: Status): Table
    requires i < |t.rows|
  {
    match Transition(t.rows[i].status, target)
    case Ok(Some(e)) => Table(t.rows[i := t.rows[i].(status := target)], t.events + [Event(i, e.kind, Some(e.change))])
    case _ => t
  }

  /** Where a verdict leaves a row in the pipeline. */
  function TargetStatus(verdict: Recommendation): Status {
    if verdict in {StronglyPursue, Pursue} then Recommended else Scored
  }

  /** Scoring moves an active row along. */
  function ScoreRow(t: Table, i: nat, verdict: Recommendation): Table
    requires i < |t.rows|
  {
    if t.rows[i].status in INACTIVE then t else SetStatus(t, i, TargetStatus(verdict))
  }

  // ---- Invariants -----------------------------------------------------------------------

  /** No two active rows share a canonical URL or a content hash. */
  predicate ActiveUnique(t: Table) {
    forall i, j :: 0 <= i < j < |t.rows| && t.rows[i].status !in INACTIVE && t.rows[j].status !in INACTIVE ==>
      t.rows[i].canonicalUrl != t.rows[j].canonicalUrl && t.rows[i].contentHash != t.rows[j].contentHash
  }

  /** The unique constraint. */
  predicate HashesUnique(t: Table) {
    forall i, j :: 0 <= i < j < |t.rows| ==> t.rows[i].contentHash != t.rows[j].contentHash
  }

  predicate RowOk(t: Table, i: nat)
    requires i < |t.rows|
  {
    var r := t.rows[i];
    && r.sourceUrl == r.canonicalUrl
    && (r.duplicateOf.Some? ==> r.duplicateOf.value < i)
    && r.facts.discoveredAt.Some? && r.facts.expiresAt.Some?
    && 0 <= r.freshness <= 10000
  }

  /** The status that a row's events lead to, or `None` before it is discovered. */
  function Replay(events: seq<Event>, i: nat): Option<Status> {
    if events == [] then None
    else
      var e := events[|events| - 1];
      var before := Replay(events[..|events| - 1], i);
      if e.row != i then before
      else if e.change.Some? then Some(e.change.value.to)
      else match e.kind
        case EvDiscovered => Some(Discovered)
        case EvDeduplicated => Some(Duplicate)
        case EvExpired => Some(Expired)
        case _ => before
  }

  /** Every recorded change is a legal move from the status the row had at that point. */
  predicate Legal(events: seq<Event>) {
    forall k :: 0 <= k < |events| && events[k].change.Some? ==>
      && Replay(events[..k], events[k].row) == Some(events[k].change.value.from)
      && CanTransition(events[k].change.value.from, events[k].change.value.to)
  }

  predicate LogAgrees(t: Table) {
    && (forall k :: 0 <= k < |t.events| ==> t.events[k].row < |t.rows|)
    && (forall i :: 0 <= i < |t.rows| ==> Replay(t.events, i) == Some(t.rows[i].status))
    && Legal(t.events)
  }

  predicate Valid(t: Table) {
    && ActiveUnique(t) && HashesUnique(t) && LogAgrees(t)
    && forall i :: 0 <= i < |t.rows| ==> RowOk(t, i)
  }

  /** What no operation changes about an existing row. */
  predicate Preserves(t: Table, t': Table) {
    && |t.rows| <= |t'.rows|
    && t.events <= t'.events
    && forall i :: 0 <= i < |t.rows| ==>
      var a, b := t.rows[i], t'.rows[i];
      && b.canonicalUrl == a.canonicalUrl && b.contentHash == a.contentHash && b.duplicateOf == a.duplicateOf
      && b.facts.expiresAt == a.facts.expiresAt
      && (a.status in INACTIVE ==> b.status in INACTIVE)
      && (a.status == Archived ==> b.status == Archived)
  }

  // ---- What the probes guarantee ------------------------------------------------------------

  lemma BestTitleIsRow(m: Match, scan: seq<nat>, rows: seq<Row>, c: Candidate, env: Env)
    requires IsTitleScan(scan, rows, c, env)
    requires IsBest(Some(m), ByTitle, ScannedRows(scan, rows, c, env), TITLE_SIMILARITY_THRESHOLD)
    ensures m.probe == ByTitle && m.row < |rows| && rows[m.row].status != Duplicate
  {
    var scanned := ScannedRows(scan, rows, c, env);
    var k, b :| 0 <= k < |scanned| && 0 <= b < |scanned| && PickedMatch(scanned, TITLE_SIMILARITY_THRESHOLD, m, k, b);
    assert scan[k] in scan && scanned[k] == ScannedRow(scan[k], rows, c, env);
  }

  lemma BestVectorIsRow(m: Match, scan: seq<nat>, rows: seq<Row>, c: Candidate, env: Env)
    requires IsEmbeddingScan(scan, rows, c)
    requires IsBest(Some(m), ByEmbedding, ScannedVectors(scan, rows, c, env), EMBEDDING_SIMILARITY_THRESHOLD)
    ensures m.probe == ByEmbedding && m.row < |rows| && rows[m.row].status != Duplicate
  {
    var scanned := ScannedVectors(scan, rows, c, env);
    var k, b :|
      0 <= k < |scanned| && 0 <= b < |scanned| && PickedMatch(scanned, EMBEDDING_SIMILARITY_THRESHOLD, m, k, b);
    assert scan[k] in scan && scanned[k] == ScannedVector(scan[k], rows, c, env);
  }

  lemma SimilarIsRow(m: Match, titles: seq<nat>, vectors: seq<nat>, rows: seq<Row>, c: Candidate, env: Env)
    requires IsSimilar(Some(m), titles, vectors, rows, c, env)
    ensures m.probe in {ByTitle, ByEmbedding} && m.row < |rows| && rows[m.row].status != Duplicate
    ensures m.probe == ByEmbedding ==> c.embedding.Some?
  {
    if Fires(ScannedRows(titles, rows, c, env), TITLE_SIMILARITY_THRESHOLD) {
      BestTitleIsRow(m, titles, rows, c, env);
    } else {
      BestVectorIsRow(m, vectors, rows, c, env);
      var k :| 0 <= k < |ScannedVectors(vectors, rows, c, env)|
        && Dedup.Eligible(ScannedVectors(vectors, rows, c, env)[k], EMBEDDING_SIMILARITY_THRESHOLD);
      assert vectors[k] in vectors;
    }
  }

  /** Some row is found by URL or by hash. */
  predicate ExactHit(rows: seq<Row>, c: Candidate) {
    exists i :: 0 <= i < |rows| && (UrlHit(rows[i], c) || HashHit(rows[i], c))
  }

  /** Whatever probe hit, the match is an existing row that is not a duplicate itself. */
  lemma MatchIsRow(m: Option<Match>, rows: seq<Row>, c: Candidate, env: Env)
    requires IsMatch(m, rows, c, env)
    ensures m.Some? ==> m.value.row < |rows| && rows[m.value.row].status != Duplicate
    ensures ExactHit(rows, c) <==> m.Some? && m.value.probe in {ByUrl, ByHash}
    ensures m.Some? && m.value.probe == ByEmbedding ==> c.embedding.Some?
  {
    if !ExactHit(rows, c) {
      assert forall i :: 0 <= i < |rows| ==> !UrlHit(rows[i], c) && !HashHit(rows[i], c);
      var titles, vectors :| IsSimilar(m, titles, vectors, rows, c, env);
      if m.Some? {
        SimilarIsRow(m.value, titles, vectors, rows, c, env);
      }
    }
  }

  // ---- Every operation keeps the invariant ------------------------------------------------------

  lemma {:induction false} ReplayOther(events: seq<Event>, more: seq<Event>, i: nat)
    requires forall e :: e in more ==> e.row != i
    ensures Replay(events + more, i) == Replay(events, i)
  {
    if more == [] {
      assert events + more == events;
    } else {
      var n := |more| - 1;
      assert more[n] in more;
      assert (events + more)[..|events| + n] == events + more[..n];
      ReplayOther(events, more[..n], i);
    }
  }

  lemma ReplaySnoc(events: seq<Event>, e: Event)
    ensures (events + [e])[..|events|] == events
  {}

  lemma LegalSnoc(events: seq<Event>, e: Event)
    requires Legal(events)
    requires e.change.Some? ==>
      Replay(events, e.row) == Some(e.change.value.from) && CanTransition(e.change.value.from, e.change.value.to)
    ensures Legal(events + [e])
  {
    var all := events + [e];
    forall k | 0 <= k < |all| && all[k].change.Some?
      ensures Replay(all[..k], all[k].row) == Some(all[k].change.value.from)
      ensures CanTransition(all[k].change.value.from, all[k].change.value.to)
    {
      if k < |events| {
        assert all[..k] == events[..k] && all[k] == events[k];
      } else {
        ReplaySnoc(events, e);
      }
    }
  }

  /** One more event about row `i`, after which the row has the status the event leads to. */
  lemma LogSnoc(t: Table, i: nat, r: Row, e: Event)
    requires LogAgrees(t) && i < |t.rows| && e.row == i
    requires e.change.Some? ==>
      t.rows[i].status == e.change.value.from && CanTransition(e.change.value.from, e.change.value.to)
        && r.status == e.change.value.to
    requires e.change.None? ==> e.kind == EvRevalidated && r.status == t.rows[i].status
    ensures LogAgrees(Table(t.rows[i := r], t.events + [e]))
  {
    LegalSnoc(t.events, e);
    ReplaySnoc(t.events, e);
    forall j | 0 <= j < |t.rows|
      ensures Replay(t.events + [e], j) == Some(t.rows[i := r][j].status)
    {
      assert Replay(t.events, j) == Some(t.rows[j].status);
    }
  }

  /** Replacing a row by one that is no more active and has the same identity. */
  lemma UpdateValid(t: Table, i: nat, r: Row, e: Event)
    requires Valid(t) && i < |t.rows|
    requires LogAgrees(Table(t.rows[i := r], t.events + [e]))
    requires r.canonicalUrl == t.rows[i].canonicalUrl && r.contentHash == t.rows[i].contentHash
    requires t.rows[i].status in INACTIVE ==> r.status in INACTIVE
    requires RowOk(Table(t.rows[i := r], []), i)
    ensures Valid(Table(t.rows[i := r], t.events + [e]))
  {
    var t' := Table(t.rows[i := r], t.events + [e]);
    forall j | 0 <= j < |t'.rows|
      ensures RowOk(t', j)
    {
      assert j != i ==> RowOk(t, j);
    }
  }

  lemma TransitionKeepsInactive(current: Status, target: Status)
    requires Transition(current, target) != Err("cannot move an opportunity")
    ensures current in INACTIVE ==> target in INACTIVE
    ensures current == Archived ==> target == Archived
  {}

  lemma SetStatusValid(t: Table, i: nat, target: Status)
    requires Valid(t) && i < |t.rows|
    ensures Valid(SetStatus(t, i, target)) && Preserves(t, SetStatus(t, i, target))
  {
    match Transition(t.rows[i].status, target)
    case Ok(Some(e)) =>
      var r := t.rows[i].(status := target);
      TransitionKeepsInactive(t.rows[i].status, target);
      LogSnoc(t, i, r, Event(i, e.kind, Some(e.change)));
      assert RowOk(t, i);
      UpdateValid(t, i, r, Event(i, e.kind, Some(e.change)));
    case _ =>
  }

  lemma RefreshValid(t: Table, i: nat, now: int, env: Env)
    requires Valid(t) && i < |t.rows|
    ensures Valid(Refresh(t, i, now, env)) && Preserves(t, Refresh(t, i, now, env))
  {
    var a := Assess(t.rows[i].facts, now, env.decay);
    var r := Refreshed(t.rows[i], a);
    assert RowOk(t, i);
    ScoreInRange(t.rows[i].facts, now, env.decay);
    ExpiryIsFixed(t.rows[i].facts, now, env.decay);
    if a.isExpired && r.status !in INACTIVE {
      var e := Event(i, EntryEvent(Expired), Some(Change(r.status, Expired)));
      LogSnoc(t, i, r.(status := Expired), e);
      UpdateValid(t, i, r.(status := Expired), e);
    } else {
      LogSnoc(t, i, r, Event(i, EvRevalidated, None));
      UpdateValid(t, i, r, Event(i, EvRevalidated, None));
    }
  }

  /**
   What a refresh records: an expiry exactly when an active row is past its date, otherwise a
   revalidation, also for an inactive row that is past its date. Only an expiry changes the status.
   */
  lemma RefreshRecords(t: Table, i: nat, now: int, env: Env)
    requires i < |t.rows|
    ensures var t' := Refresh(t, i, now, env);
      var due := Assess(t.rows[i].facts, now, env.decay).isExpired && t.rows[i].status !in INACTIVE;
      && |t'.events| == |t.events| + 1 && t.events < t'.events
      && t'.events[|t.events|].row == i
      && t'.events[|t.events|].kind == (if due then EvExpired else EvRevalidated)
      && t'.rows[i].status == (if due then Expired else t.rows[i].status)
      && forall j :: 0 <= j < |t.rows| && j != i ==> t'.rows[j] == t.rows[j]
  {}

  lemma RevalidateValid(t: Table, i: nat, now: int, env: Env)
    requires Valid(t) && i < |t.rows|
    ensures var t' := Table(t.rows[i := Revalidated(t.rows[i], now, env)], t.events + [Event(i, EvRevalidated, None)]);
      Valid(t') && Preserves(t, t')
  {
    var r := Revalidated(t.rows[i], now, env);
    assert RowOk(t, i);
    ScoreInRange(r.facts, now, env.decay);
    LogSnoc(t, i, r, Event(i, EvRevalidated, None));
    UpdateValid(t, i, r, Event(i, EvRevalidated, None));
  }

  lemma {:induction false} ReplayNothing(events: seq<Event>, i: nat)
    requires forall e :: e in events ==> e.row != i
    ensures Replay(events, i) == None
  {
    if events != [] {
      assert events[|events| - 1] in events;
      ReplayNothing(events[..|events| - 1], i);
    }
  }

  /** The events of an insert lead to the status of the new row. */
  lemma InsertLog(t: Table, r: Row)
    requires LogAgrees(t) && r.status in {Discovered, Expired, Duplicate}
    ensures LogAgrees(Table(t.rows + [r], t.events + InsertEvents(|t.rows|, r)))
  {
    var i := |t.rows|;
    var more := InsertEvents(i, r);
    var first := t.events + [more[0]];
    assert forall k :: 0 <= k < |t.events| ==> t.events[k].row != i;
    ReplayNothing(t.events, i);
    ReplaySnoc(t.events, more[0]);
    LegalSnoc(t.events, more[0]);
    if |more| == 2 {
      ReplaySnoc(first, more[1]);
      LegalSnoc(first, more[1]);
      assert t.events + more == first + [more[1]];
    } else {
      assert t.events + more == first;
    }
    assert Replay(t.events + more, i) == Some(r.status);
    forall j | 0 <= j < i
      ensures Replay(t.events + more, j) == Some(t.rows[j].status)
    {
      ReplayOther(t.events, more, j);
    }
  }

  lemma InsertValid(t: Table, r: Row)
    requires Valid(t) && r.status in {Discovered, Expired, Duplicate}
    requires !HashTaken(t, r.contentHash)
    requires r.status !in INACTIVE ==>
      forall i :: 0 <= i < |t.rows| && t.rows[i].status !in INACTIVE ==> t.rows[i].canonicalUrl != r.canonicalUrl
    requires RowOk(Table(t.rows + [r], []), |t.rows|)
    ensures var t' := Table(t.rows + [r], t.events + InsertEvents(|t.rows|, r)); Valid(t') && Preserves(t, t')
  {
    var t' := Table(t.rows + [r], t.events + InsertEvents(|t.rows|, r));
    InsertLog(t, r);
    forall j | 0 <= j < |t'.rows|
      ensures RowOk(t', j)
    {
      assert j < |t.rows| ==> RowOk(t, j);
    }
  }

  lemma IngestValid(t: Table, raw: Raw, m: Option<Match>, now: int, env: Env)
    requires Valid(t)
    requires CandidateOf(raw, env).Some? ==> IsMatch(m, t.rows, CandidateOf(raw, env).value, env)
    requires m.Some? ==> m.value.row < |t.rows|
    ensures Valid(Ingest(t, raw, m, now, env)) && Preserves(t, Ingest(t, raw, m, now, env))
  {
    var c := CandidateOf(raw, env);
    match IngestOutcome(t, c, m)
    case Rejected =>
    case IntegrityError =>
    case Merged =>
      RevalidateValid(t, m.value.row, now, env);
    case _ =>
      MatchIsRow(m, t.rows, c.value, env);
      NewRowValid(t, c.value, raw, m, now, env);
  }

  /** An insert after probes that found no row by URL or hash. */
  lemma NewRowValid(t: Table, c: Candidate, raw: Raw, m: Option<Match>, now: int, env: Env)
    requires Valid(t) && !HashTaken(t, c.contentHash)
    requires !ExactHit(t.rows, c)
    requires m.Some? ==> m.value.row < |t.rows|
    ensures var r := NewRow(c, raw, m, now, env);
      var t' := Table(t.rows + [r], t.events + InsertEvents(|t.rows|, r));
      Valid(t') && Preserves(t, t')
  {
    var r := NewRow(c, raw, m, now, env);
    ScoreInRange(NewFacts(raw, now), now, env.decay);
    forall i | 0 <= i < |t.rows| && t.rows[i].status !in INACTIVE
      ensures t.rows[i].canonicalUrl != r.canonicalUrl
    {
      assert !UrlHit(t.rows[i], c);
    }
    InsertValid(t, r);
  }

  // ---- Whole histories ------------------------------------------------------------------------------

  datatype Op =
    | OpIngest(raw: Raw, found: Option<Match>, now: int)
    | OpRefresh(row: nat, now: int)
    | OpSetStatus(row: nat, target: Status)
    | OpScore(row: nat, verdict: Recommendation)

  /** The operation names existing rows, and its probe answers are ones the probes may give. */
  ghost predicate Possible(t: Table, op: Op, env: Env) {
    match op
    case OpIngest(raw, found, now) =>
      && (found.Some? ==> found.value.row < |t.rows|)
      && (CandidateOf(raw, env).Some? ==> IsMatch(found, t.rows, CandidateOf(raw, env).value, env))
    case OpRefresh(row, now) => row < |t.rows|
    case OpSetStatus(row, target) => row < |t.rows|
    case OpScore(row, verdict) => row < |t.rows|
  }

  ghost function Apply(t: Table, op: Op, env: Env): Table
    requires Possible(t, op, env)
  {
    match op
    case OpIngest(raw, found, now) => Ingest(t, raw, found, now, env)
    case OpRefresh(row, now) => Refresh(t, row, now, env)
    case OpSetStatus(row, target) => SetStatus(t, row, target)
    case OpScore(row, verdict) => ScoreRow(t, row, verdict)
  }

  /** The states of a history, each from the one before by a possible operation. */
  ghost predicate IsRun(states: seq<Table>, ops: seq<Op>, env: Env) {
    && |states| == |ops| + 1
    && forall k :: 0 <= k < |ops| ==> Possible(states[k], ops[k], env) && states[k + 1] == Apply(states[k], ops[k], env)
  }

  lemma StepValid(t: Table, op: Op, env: Env)
    requires Valid(t) && Possible(t, op, env)
    ensures Valid(Apply(t, op, env)) && Preserves(t, Apply(t, op, env))
  {
    match op
    case OpIngest(raw, found, now) => IngestValid(t, raw, found, now, env);
    case OpRefresh(row, now) => RefreshValid(t, row, now, env);
    case OpSetStatus(row, target) => SetStatusValid(t, row, target);
    case OpScore(row, verdict) => SetStatusValid(t, row, TargetStatus(verdict));
  }

  /**
   Over every history from an empty table: active rows never share a canonical URL or content hash,
   content hashes are unique, duplicate links point to older rows, every row's status is what its event
   log replays to through legal moves, and expiry dates and identities never change once written,
   no inactive row becomes active again, and the log only grows.
   */
  lemma {:induction false} EveryHistoryIsValid(states: seq<Table>, ops: seq<Op>, env: Env)
    requires IsRun(states, ops, env) && states[0] == EMPTY
    ensures forall k :: 0 <= k < |states| ==> Valid(states[k])
    ensures forall k :: 0 <= k < |ops| ==> Preserves(states[k], states[k + 1])
  {
    if ops != [] {
      var n := |ops| - 1;
      EveryHistoryIsValid(states[..n + 1], ops[..n], env);
      assert states[..n + 1][n] == states[n];
      StepValid(states[n], ops[n], env);
      forall k | 0 <= k < |ops|
        ensures Preserves(states[k], states[k + 1])
      {
        if k < n {
          assert states[..n + 1][k] == states[k] && states[..n + 1][k + 1] == states[k + 1];
        }
      }
    }
  }

  /**
   Exactly when an insert fails on the unique constraint: the payload is usable, no row but duplicates
   carries its URL or hash, and some duplicate row carries its hash.
   */
  lemma IntegrityErrorIff(t: Table, raw: Raw, m: Option<Match>, env: Env)
    requires CandidateOf(raw, env).Some? ==> IsMatch(m, t.rows, CandidateOf(raw, env).value, env)
    ensures IngestOutcome(t, CandidateOf(raw, env), m) == IntegrityError <==>
      && CandidateOf(raw, env).Some?
      && var c := CandidateOf(raw, env).value;
        && !ExactHit(t.rows, c)
        && exists i :: 0 <= i < |t.rows| && t.rows[i].status == Duplicate && t.rows[i].contentHash == c.contentHash
  {
    if CandidateOf(raw, env).Some? {
      var c := CandidateOf(raw, env).value;
      MatchIsRow(m, t.rows, c, env);
      assert forall i :: 0 <= i < |t.rows| && t.rows[i].contentHash == c.contentHash ==>
        HashHit(t.rows[i], c) || t.rows[i].status == Duplicate;
    }
  }

  // ---- The same payload again -------------------------------------------------------------------

  /** What ingesting a payload leads to when it is ingested again at once. */
  function Again(first: Outcome): Outcome {
    match first
    case Created => Merged
    case Merged => Merged
    case FlaggedDuplicate => IntegrityError
    case IntegrityError => IntegrityError
    case Rejected => Outcome.Rejected
  }

  lemma AppendedHit(rows: seq<Row>, r: Row, c: Candidate)
    requires r.canonicalUrl == c.url && r.sourceUrl == c.url && r.contentHash == c.contentHash
    ensures ExactHit(rows + [r], c) <==> r.status != Duplicate || ExactHit(rows, c)
  {
    var all := rows + [r];
    if r.status != Duplicate {
      assert UrlHit(all[|rows|], c);
    }
    if i :| 0 <= i < |rows| && (UrlHit(rows[i], c) || HashHit(rows[i], c)) {
      assert all[i] == rows[i];
    }
    if i :| 0 <= i < |all| && (UrlHit(all[i], c) || HashHit(all[i], c)) {
      assert i < |rows| ==> all[i] == rows[i];
    }
  }

  lemma ReplacedHit(rows: seq<Row>, i: nat, r: Row, c: Candidate)
    requires i < |rows| && ExactHit(rows, c)
    requires r.status == rows[i].status && r.canonicalUrl == rows[i].canonicalUrl
    requires r.sourceUrl == rows[i].sourceUrl && r.contentHash == rows[i].contentHash
    ensures ExactHit(rows[i := r], c)
  {
    var k :| 0 <= k < |rows| && (UrlHit(rows[k], c) || HashHit(rows[k], c));
    assert UrlHit(rows[i := r][k], c) || HashHit(rows[i := r][k], c);
  }

  /** A usable payload ingested twice: what the table holds in between. */
  lemma BetweenIngests(t: Table, raw: Raw, c: Candidate, m: Option<Match>, now: int, env: Env)
    requires CandidateOf(raw, env) == Some(c) && IsMatch(m, t.rows, c, env)
    requires m.Some? ==> m.value.row < |t.rows|
    ensures var t' := Ingest(t, raw, m, now, env);
      match IngestOutcome(t, Some(c), m)
      case FlaggedDuplicate => !ExactHit(t'.rows, c) && HashTaken(t', c.contentHash)
      case IntegrityError => !ExactHit(t'.rows, c) && HashTaken(t', c.contentHash)
      case _ => ExactHit(t'.rows, c)
  {
    MatchIsRow(m, t.rows, c, env);
    var t' := Ingest(t, raw, m, now, env);
    match IngestOutcome(t, Some(c), m)
    case Rejected => assert false;
    case IntegrityError =>
    case Merged =>
      ReplacedHit(t.rows, m.value.row, Revalidated(t.rows[m.value.row], now, env), c);
    case _ =>
      var r := NewRow(c, raw, m, now, env);
      AppendedHit(t.rows, r, c);
      assert t'.rows[|t.rows|].contentHash == c.contentHash;
  }

  /**
   Ingesting a payload a second time is answered by what the first time did: it merges into a row that
   was created or merged, and it fails on the unique hash when the first one was flagged as a duplicate.
   Neither way is a row added.
   */
  lemma IngestTwice(t: Table, raw: Raw, m: Option<Match>, now: int, m': Option<Match>, later: int, env: Env)
    requires CandidateOf(raw, env).Some? ==> IsMatch(m, t.rows, CandidateOf(raw, env).value, env)
    requires m.Some? ==> m.value.row < |t.rows|
    requires var t' := Ingest(t, raw, m, now, env);
      && (CandidateOf(raw, env).Some? ==> IsMatch(m', t'.rows, CandidateOf(raw, env).value, env))
      && (m'.Some? ==> m'.value.row < |t'.rows|)
    ensures var t' := Ingest(t, raw, m, now, env);
      var c := CandidateOf(raw, env);
      && IngestOutcome(t', c, m') == Again(IngestOutcome(t, c, m))
      && |Ingest(t', raw, m', later, env).rows| == |t'.rows|
  {
    if CandidateOf(raw, env).Some? {
      var c := CandidateOf(raw, env).value;
      var t' := Ingest(t, raw, m, now, env);
      BetweenIngests(t, raw, c, m, now, env);
      SecondOutcome(t', c, m', env);
      SameRowCount(t', raw, m', later, env);
    }
  }

  /** A payload that hits merges, and one that does not hit although its hash is taken fails. */
  lemma SecondOutcome(t: Table, c: Candidate, m: Option<Match>, env: Env)
    requires IsMatch(m, t.rows, c, env)
    ensures ExactHit(t.rows, c) ==> IngestOutcome(t, Some(c), m) == Merged
    ensures !ExactHit(t.rows, c) && HashTaken(t, c.contentHash) ==> IngestOutcome(t, Some(c), m) == IntegrityError
  {
    MatchIsRow(m, t.rows, c, env);
  }

  lemma SameRowCount(t: Table, raw: Raw, m: Option<Match>, now: int, env: Env)
    requires m.Some? ==> m.value.row < |t.rows|
    requires IngestOutcome(t, CandidateOf(raw, env), m) in {Merged, IntegrityError}
    ensures |Ingest(t, raw, m, now, env).rows| == |t.rows|
  {}

  /**
   The failure is real and reachable: ingest a usable payload into the empty table and flag its row as a
   duplicate; whatever the probes may then answer, ingesting the payload again fails on the unique hash.
   */
  lemma FlaggedPayloadFails(raw: Raw, c: Candidate, now: int, m: Option<Match>, env: Env)
    requires CandidateOf(raw, env) == Some(c)
    ensures Possible(EMPTY, OpIngest(raw, None, now), env)
    ensures var flagged := SetStatus(Ingest(EMPTY, raw, None, now, env), 0, Duplicate);
      && |flagged.rows| == 1 && flagged.rows[0].status == Duplicate
      && (IsMatch(m, flagged.rows, c, env) ==> IngestOutcome(flagged, Some(c), m) == IntegrityError)
  {
    assert IsSimilar(None, [], [], [], c, env);
    var flagged := SetStatus(Ingest(EMPTY, raw, None, now, env), 0, Duplicate);
    assert flagged.rows[0].contentHash == c.contentHash;
    if IsMatch(m, flagged.rows, c, env) {
      IntegrityErrorIff(flagged, raw, m, env);
    }
  }
}
