/** What the operations write into a row, column by column. */
module StoreLaws {
  import opened Wrappers
  import opened Vocabulary
  import opened Lifecycle
  import opened Freshness
  import opened OpportunityStore
  import opened Rounding
  import Dedup

  /** A payload is usable exactly with a title and a URL; that URL and the hash of its text identify it. */
  lemma CandidateIs(raw: Raw, env: Env)
    ensures CandidateOf(raw, env).Some? <==> env.normalize(raw.title).Some? && env.canonicalize(raw.sourceUrl).Some?
    ensures CandidateOf(raw, env).Some? ==>
      var c := CandidateOf(raw, env).value;
      && Some(c.title) == env.normalize(raw.title) && Some(c.url) == env.canonicalize(raw.sourceUrl)
      && c.organization == NormalizeOpt(env, raw.organization) && c.domain == NormalizeOpt(env, raw.domain)
      && c.contentHash == env.fingerprint(c.title, c.organization, NormalizeOpt(env, raw.description))
      && c.embedding == None
  {}

  predicate Inserts(o: Outcome) {
    o in {Created, FlaggedDuplicate}
  }

  /** The identity and the dates of an inserted row. */
  lemma InsertedRow(t: Table, raw: Raw, c: Candidate, m: Option<Match>, now: int, env: Env)
    requires CandidateOf(raw, env) == Some(c) && (m.Some? ==> m.value.row < |t.rows|)
    requires Inserts(IngestOutcome(t, Some(c), m))
    ensures var t' := Ingest(t, raw, m, now, env);
      && |t'.rows| == |t.rows| + 1 && t'.rows[..|t.rows|] == t.rows
      && var r := t'.rows[|t.rows|];
        && r.canonicalUrl == c.url && r.sourceUrl == c.url && r.contentHash == c.contentHash
        && r.title == c.title && r.organization == c.organization && r.domain == c.domain
        && r.facts.category == raw.category && r.facts.deadline == raw.deadline && r.facts.postedAt == raw.postedAt
        && r.facts.discoveredAt == Some(now) && r.facts.lastVerifiedAt == Some(now)
  {}

  /**
   The expiry of an inserted row: the stated deadline if there is one, else the usual lifetime of its
   category from its posting, or from now. It starts out expired exactly when it is no duplicate and
   that date has passed, and as a duplicate exactly when a row matched, to which it links.
   */
  lemma InsertedExpiry(t: Table, raw: Raw, c: Candidate, m: Option<Match>, now: int, env: Env)
    requires CandidateOf(raw, env) == Some(c) && (m.Some? ==> m.value.row < |t.rows|)
    requires Inserts(IngestOutcome(t, Some(c), m))
    ensures var r := Ingest(t, raw, m, now, env).rows[|t.rows|];
      var lifetime := TtlDays(raw.category) * 86_400_000_000;
      && r.facts.expiresAt.Some?
      && (raw.deadline.Some? ==> r.facts.expiresAt == raw.deadline)
      && (raw.deadline.None? ==>
        r.facts.expiresAt == Some((if raw.postedAt.Some? then raw.postedAt.value else now) + lifetime))
      && (r.status == Duplicate <==> m.Some?)
      && (r.status == Expired <==> m.None? && now > r.facts.expiresAt.value)
      && (r.status == Discovered <==> m.None? && now <= r.facts.expiresAt.value)
      && r.duplicateOf == (if m.Some? then Some(m.value.row) else None)
  {
    ExpiryPriority(NewFacts(raw, now));
    ExpiredIff(NewFacts(raw, now), now, env.decay);
  }

  /** Seeing a row again verifies it now, rescores it, and leaves everything else alone. */
  lemma MergedRow(t: Table, raw: Raw, c: Candidate, m: Match, now: int, env: Env)
    requires CandidateOf(raw, env) == Some(c) && m.row < |t.rows| && m.probe in {ByUrl, ByHash}
    ensures var t' := Ingest(t, raw, Some(m), now, env);
      var r, r' := t.rows[m.row], t'.rows[m.row];
      && |t'.rows| == |t.rows| && t'.events == t.events + [Event(m.row, EvRevalidated, None)]
      && (forall i :: 0 <= i < |t.rows| && i != m.row ==> t'.rows[i] == t.rows[i])
      && r'.facts == r.facts.(lastVerifiedAt := Some(now))
      && r'.freshness == Assess(r'.facts, now, env.decay).score
      && r' == r.(facts := r'.facts, freshness := r'.freshness)
  {}

  /** It leaves the row at least as fresh as a refresh at that time would. */
  lemma MergingRefreshes(t: Table, raw: Raw, c: Candidate, m: Match, now: int, env: Env)
    requires CandidateOf(raw, env) == Some(c) && m.row < |t.rows| && m.probe in {ByUrl, ByHash}
    requires IsDecay(env.decay) && env.decay(0) == 1.0
    ensures Ingest(t, raw, Some(m), now, env).rows[m.row].freshness >= Refresh(t, m.row, now, env).rows[m.row].freshness
  {
    MergedRow(t, raw, c, m, now, env);
    VerifyingNeverLowers(t.rows[m.row].facts, now, env.decay);
  }

  /** A refresh stores the score and the expiry of its assessment, and no other column but perhaps the status. */
  lemma RefreshedRow(t: Table, i: nat, now: int, env: Env)
    requires i < |t.rows|
    ensures var r, r' := t.rows[i], Refresh(t, i, now, env).rows[i];
      && r'.freshness == Assess(r.facts, now, env.decay).score
      && r'.facts == r.facts.(expiresAt := DeriveExpiresAt(r.facts))
      && r' == r.(freshness := r'.freshness, facts := r'.facts, status := r'.status)
  {}

  /** Scoring leaves an active row recommended exactly on one of the two enthusiastic verdicts, else scored. */
  lemma ScoredRow(t: Table, i: nat, verdict: Recommendation)
    requires i < |t.rows|
    ensures var s, s' := t.rows[i].status, ScoreRow(t, i, verdict).rows[i].status;
      && (s in INACTIVE ==> ScoreRow(t, i, verdict) == t)
      && (s !in INACTIVE ==> s' == if verdict == StronglyPursue || verdict == Pursue then Recommended else Scored)
  {
    if t.rows[i].status !in INACTIVE {
      ScoringNeverFails(t.rows[i].status, TargetStatus(verdict));
    }
  }

  /** The event that a legal move records, by the status it leads to. */
  lemma MoveIsLogged(t: Table, i: nat, target: Status)
    requires i < |t.rows| && CanTransition(t.rows[i].status, target)
    ensures var t' := SetStatus(t, i, target);
      && t'.rows == t.rows[i := t.rows[i].(status := target)]
      && |t'.events| == |t.events| + 1 && t.events < t'.events
      && var e := t'.events[|t.events|];
        && e.row == i && e.change == Some(Change(t.rows[i].status, target))
        && (e.kind == EvEnriched <==> target == Enriched)
        && (e.kind == EvScored <==> target == Scored)
        && (e.kind == EvRecommended <==> target == Recommended)
        && (e.kind == EvExpired <==> target == Expired)
        && (e.kind == EvDeduplicated <==> target == Duplicate)
        && (e.kind == EvDismissed <==> target == Status.Rejected)
        && (e.kind == EvStatusChanged <==> target in {Discovered, Qualified, Archived})
  {
    NoSelfMove(t.rows[i].status, target);
  }

  lemma NoSelfMove(current: Status, target: Status)
    requires CanTransition(current, target)
    ensures current != target
  {}

  /** The events of an insert: discovered, then whether it is a duplicate or expired already. */
  lemma InsertIsLogged(t: Table, raw: Raw, c: Candidate, m: Option<Match>, now: int, env: Env)
    requires CandidateOf(raw, env) == Some(c) && (m.Some? ==> m.value.row < |t.rows|)
    requires Inserts(IngestOutcome(t, Some(c), m))
    ensures var t', i := Ingest(t, raw, m, now, env), |t.rows|;
      t'.events == t.events + [Event(i, EvDiscovered, None)] +
        (if t'.rows[i].status == Duplicate then [Event(i, EvDeduplicated, None)]
         else if t'.rows[i].status == Expired then [Event(i, EvExpired, None)]
         else [])
  {}

  /** An illegal move and a move to the same status change nothing. */
  lemma NoMove(t: Table, i: nat, target: Status)
    requires i < |t.rows| && !CanTransition(t.rows[i].status, target)
    ensures SetStatus(t, i, target) == t
    ensures Transition(t.rows[i].status, target).Err? <==> t.rows[i].status != target
  {}

  /** A row with the same organisation, or with the same domain, is compared by title, unless it is a duplicate. */
  lemma ComparedByTitle(r: Row, c: Candidate, env: Env)
    requires r.status != Duplicate
    requires
      || (r.organization.Some? && c.organization.Some?
        && env.lower(r.organization.value) == env.fold(c.organization.value))
      || (r.domain.Some? && c.domain.Some? && env.lower(r.domain.value) == env.fold(c.domain.value))
    ensures TitleCandidate(r, c, env)
  {}

  /** Without a known organisation and domain nothing is compared by title. */
  lemma NothingToCompare(r: Row, c: Candidate, env: Env)
    requires c.organization.None? && c.domain.None?
    ensures !TitleCandidate(r, c, env)
  {}

  /** A title match is at least 0.62 similar and a vector match at least 0.92. */
  lemma SimilarEnough(m: Match, titles: seq<nat>, vectors: seq<nat>, rows: seq<Row>, c: Candidate, env: Env)
    requires IsSimilar(Some(m), titles, vectors, rows, c, env)
    ensures m.probe == ByTitle ==> m.similarity >= 6200
    ensures m.probe == ByEmbedding ==> m.similarity >= 9200
  {
    var byTitle, byVector := ScannedRows(titles, rows, c, env), ScannedVectors(vectors, rows, c, env);
    if Fires(byTitle, TITLE_SIMILARITY_THRESHOLD) {
      var k, b :| 0 <= k < |byTitle| && 0 <= b < |byTitle| && PickedMatch(byTitle, TITLE_SIMILARITY_THRESHOLD, m, k, b);
      HalfEvenExact(6200, 10000);
      HalfEvenMonotone(0.62, byTitle[b].ratio, 10000);
    } else {
      var k, b :|
        0 <= k < |byVector| && 0 <= b < |byVector| && PickedMatch(byVector, EMBEDDING_SIMILARITY_THRESHOLD, m, k, b);
      HalfEvenExact(9200, 10000);
      HalfEvenMonotone(0.92, byVector[b].ratio, 10000);
    }
  }

  /** A compared row that is compatible and at least 0.62 similar by title makes the title probe answer. */
  lemma SimilarTitleMatches(
    m: Option<Match>, titles: seq<nat>, vectors: seq<nat>, rows: seq<Row>, c: Candidate, env: Env, k: nat)
    requires IsSimilar(m, titles, vectors, rows, c, env) && k < |titles| && titles[k] < |rows|
    requires Dedup.TitlesCompatible(env.fold(c.title), env.fold(rows[titles[k]].title))
    requires Dedup.Similarity(env.fold(c.title), env.fold(rows[titles[k]].title)) >= 0.62
    ensures m.Some? && m.value.probe == ByTitle
  {
    var byTitle := ScannedRows(titles, rows, c, env);
    assert byTitle[k] == ScannedRow(titles[k], rows, c, env);
    assert Dedup.Eligible(byTitle[k], TITLE_SIMILARITY_THRESHOLD);
  }
}
