/** The service that updates the opportunity table in place. */
module IngestionService {
  import opened Wrappers
  import opened Vocabulary
  import opened Lifecycle
  import opened Freshness
  import opened OpportunityStore
  import Dedup

  predicate ExactlyHits(r: Row, c: Candidate, byUrl: bool) {
    if byUrl then UrlHit(r, c) else HashHit(r, c)
  }

  class Service {
    var rows: seq<Row>
    var events: seq<Event>
    const env: Env

    ghost function Value(): Table
      reads this
    {
      Table(rows, events)
    }

    constructor (env: Env)
      ensures Value() == EMPTY && this.env == env
    {
      rows, events, this.env := [], [], env;
    }

    method Record(i: nat, kind: EventKind, change: Option<Change>)
      modifies this`events
      ensures events == old(events) + [Event(i, kind, change)]
    {
      events := events + [Event(i, kind, change)];
    }

    /** `_by_url` and `_by_hash`: any one hit, since these queries have no order. */
    method ExactProbe(c: Candidate, byUrl: bool) returns (found: Option<nat>)
      ensures found.Some? ==> found.value < |rows| && ExactlyHits(rows[found.value], c, byUrl)
      ensures found.None? ==> forall i :: 0 <= i < |rows| ==> !ExactlyHits(rows[i], c, byUrl)
    {
      if i: nat :| i < |rows| && ExactlyHits(rows[i], c, byUrl) {
        return Some(i);
      }
      found := None;
    }

    /** The probes in order, stopping at the first hit; the scans are the result sets of the similarity queries. */
    method FindDuplicate(c: Candidate, titles: seq<nat>, vectors: seq<nat>) returns (m: Option<Match>)
      requires IsTitleScan(titles, rows, c, env) && IsEmbeddingScan(vectors, rows, c)
      ensures IsMatch(m, rows, c, env)
    {
      var byUrl := ExactProbe(c, true);
      if byUrl.Some? {
        return Some(Match(byUrl.value, ByUrl, 10000));
      }
      var byHash := ExactProbe(c, false);
      if byHash.Some? {
        return Some(Match(byHash.value, ByHash, 10000));
      }
      m := SimilarDuplicate(c, titles, vectors);
      SimilarIsMatch(m, titles, vectors, rows, c, env);
    }

    /** The two similarity probes, the second only when the first finds nothing. */
    method SimilarDuplicate(c: Candidate, titles: seq<nat>, vectors: seq<nat>) returns (m: Option<Match>)
      requires IsTitleScan(titles, rows, c, env) && IsEmbeddingScan(vectors, rows, c)
      ensures IsSimilar(m, titles, vectors, rows, c, env)
    {
      m := SimilarityProbe(ByTitle, ScannedRows(titles, rows, c, env), TITLE_SIMILARITY_THRESHOLD);
      if m.None? {
        m := SimilarityProbe(ByEmbedding, ScannedVectors(vectors, rows, c, env), EMBEDDING_SIMILARITY_THRESHOLD);
      }
    }

    /** `_by_title` and `_by_embedding` on their result sets. */
    method SimilarityProbe(probe: Probe, scanned: seq<Dedup.Scanned>, threshold: real) returns (m: Option<Match>)
      ensures IsBest(m, probe, scanned, threshold)
    {
      var best := Dedup.ScanBest(scanned, threshold);
      m := if best.Some? then Some(Match(best.value.id, probe, best.value.similarity)) else None;
      if best.Some? {
        ghost var k, b :| 0 <= k < |scanned| && 0 <= b < |scanned| &&
          Dedup.Picked(scanned, threshold, best.value, k, b);
        assert best.value == Dedup.Best(m.value.row, m.value.similarity);
        assert PickedMatch(scanned, threshold, m.value, k, b);
      }
    }

    method IngestRaw(raw: Raw, titles: seq<nat>, vectors: seq<nat>, now: int)
      returns (outcome: Outcome, ghost m: Option<Match>)
      requires CandidateOf(raw, env).Some? ==>
        && IsTitleScan(titles, rows, CandidateOf(raw, env).value, env)
        && IsEmbeddingScan(vectors, rows, CandidateOf(raw, env).value)
      modifies this
      ensures CandidateOf(raw, env).Some? ==> IsMatch(m, old(rows), CandidateOf(raw, env).value, env)
      ensures m.Some? ==> m.value.row < |old(rows)|
      ensures outcome == IngestOutcome(old(Value()), CandidateOf(raw, env), m)
      ensures Value() == Ingest(old(Value()), raw, m, now, env)
    {
      m := None;
      var candidate := CandidateOf(raw, env);
      if candidate.None? {
        return Outcome.Rejected, m;
      }
      outcome, m := IngestCandidate(candidate.value, raw, titles, vectors, now);
    }

    /** What follows once title and URL are usable. */
    method IngestCandidate(c: Candidate, raw: Raw, titles: seq<nat>, vectors: seq<nat>, now: int)
      returns (outcome: Outcome, ghost m: Option<Match>)
      requires CandidateOf(raw, env) == Some(c)
      requires IsTitleScan(titles, rows, c, env) && IsEmbeddingScan(vectors, rows, c)
      modifies this
      ensures IsMatch(m, old(rows), c, env) && (m.Some? ==> m.value.row < |old(rows)|)
      ensures outcome == IngestOutcome(old(Value()), Some(c), m)
      ensures Value() == Ingest(old(Value()), raw, m, now, env)
    {
      var found := FindDuplicate(c, titles, vectors);
      m := found;
      MatchIsRow(found, rows, c, env);
      if found.Some? && found.value.probe in {ByUrl, ByHash} {
        Revalidate(found.value.row, now);
        return Merged, m;
      }
      outcome := Insert(c, raw, found, now);
    }

    /** The insert, its unique constraint and its events. */
    method Insert(c: Candidate, raw: Raw, found: Option<Match>, now: int) returns (outcome: Outcome)
      modifies this
      ensures old(HashTaken(Value(), c.contentHash)) ==> outcome == IntegrityError && Value() == old(Value())
      ensures !old(HashTaken(Value(), c.contentHash)) ==>
        var r := NewRow(c, raw, found, now, env);
        && outcome == (if found.Some? then FlaggedDuplicate else Created)
        && Value() == Table(old(rows) + [r], old(events) + InsertEvents(|old(rows)|, r))
    {
      var a := Assess(NewFacts(raw, now), now, env.decay);
      var status := if a.isExpired then Expired else Discovered;
      var flagged := found.Some?;
      var r := Row(
        c.url, c.url, c.contentHash, c.title, c.organization, c.domain, None,
        NewFacts(raw, now).(lastVerifiedAt := Some(now), expiresAt := a.expiresAt), a.score,
        if flagged then Duplicate else status, if flagged then Some(found.value.row) else None);
      if i: nat :| i < |rows| && rows[i].contentHash == c.contentHash {
        return IntegrityError;
      }
      var id := |rows|;
      rows := rows + [r];
      Record(id, EvDiscovered, None);
      if flagged {
        Record(id, EvDeduplicated, None);
        return FlaggedDuplicate;
      } else if a.isExpired {
        Record(id, EvExpired, None);
      }
      outcome := Created;
    }

    method Revalidate(i: nat, now: int)
      requires i < |rows|
      modifies this
      ensures Value() == Table(
        old(rows)[i := Revalidated(old(rows)[i], now, env)], old(events) + [Event(i, EvRevalidated, None)])
    {
      rows := rows[i := rows[i].(facts := rows[i].facts.(lastVerifiedAt := Some(now)))];
      var a := Assess(rows[i].facts, now, env.decay);
      rows := rows[i := rows[i].(freshness := a.score)];
      Record(i, EvRevalidated, None);
    }

    method RefreshRow(i: nat, now: int) returns (a: Assessment)
      requires i < |rows|
      modifies this
      ensures a == Assess(old(rows)[i].facts, now, env.decay)
      ensures Value() == Refresh(old(Value()), i, now, env)
    {
      a := Assess(rows[i].facts, now, env.decay);
      rows := rows[i := rows[i].(freshness := a.score)];
      rows := rows[i := rows[i].(facts := rows[i].facts.(expiresAt := a.expiresAt))];
      if a.isExpired && rows[i].status !in INACTIVE {
        var event := Transition(rows[i].status, Expired);
        if event.Ok? && event.value.Some? {
          rows := rows[i := rows[i].(status := Expired)];
          Record(i, event.value.value.kind, Some(event.value.value.change));
        }
      } else {
        Record(i, EvRevalidated, None);
      }
    }

    /** `Err` is the validation error of an illegal move. */
    method SetRowStatus(i: nat, target: Status) returns (changed: Result<bool, string>)
      requires i < |rows|
      modifies this
      ensures changed.Ok? <==> Transition(old(rows)[i].status, target).Ok?
      ensures changed.Ok? ==> changed.value == (old(rows)[i].status != target)
      ensures Value() == SetStatus(old(Value()), i, target)
    {
      var event := Transition(rows[i].status, target);
      if event.Err? {
        return Err(event.error);
      }
      if event.value.None? {
        return Ok(false);
      }
      rows := rows[i := rows[i].(status := target)];
      Record(i, event.value.value.kind, Some(event.value.value.change));
      changed := Ok(true);
    }

    /** The status part of scoring, which never raises. */
    method ScoreOpportunity(i: nat, verdict: Recommendation)
      requires i < |rows|
      modifies this
      ensures Value() == ScoreRow(old(Value()), i, verdict)
    {
      if rows[i].status !in INACTIVE {
        var target := TargetStatus(verdict);
        ScoringNeverFails(rows[i].status, target);
        var changed := SetRowStatus(i, target);
        assert changed.Ok?;
      }
    }
  }

  lemma SimilarIsMatch(m: Option<Match>, titles: seq<nat>, vectors: seq<nat>, rows: seq<Row>, c: Candidate, env: Env)
    requires IsSimilar(m, titles, vectors, rows, c, env)
    requires forall i :: 0 <= i < |rows| ==> !UrlHit(rows[i], c) && !HashHit(rows[i], c)
    ensures IsMatch(m, rows, c, env)
  {}
}
