/** Freshness and expiry. Times count microseconds; a score counts ten-thousandths. */
module Freshness {
  import opened Wrappers
  import opened Vocabulary
  import opened Rounding

  const DAY := 86_400_000_000

  /** How long after posting or discovery an opportunity without a deadline is presumed closed. */
  function TtlDays(c: Category): nat {
    match c
    case Job => 60
    case Freelance => 30
    case Consulting => 45
    case Client => 45
    case Startup => 90
    case Grant => 180
    case Fellowship => 180
    case Scholarship => 180
    case Accelerator => 120
    case Incubator => 120
    case Competition => 90
    case Conference => 120
    case Speaking => 90
    case Research => 120
    case Partnership => 120
    case Business => 90
    case OpenSource => 180
    case Other => 90
  }

  /** The stored facts an assessment starts from. */
  datatype Facts = Facts(
    category: Category, deadline: Option<int>, postedAt: Option<int>, discoveredAt: Option<int>,
    lastVerifiedAt: Option<int>, expiresAt: Option<int>)

  datatype Assessment = Assessment(score: int, expiresAt: Option<int>, isExpired: bool, daysRemaining: Option<int>)

  /** The half-life curve as a function of age: in [0, 1] and never rising. */
  type Decay = int -> real

  ghost predicate IsDecay(decay: Decay) {
    && (forall age :: age >= 0 ==> 0.0 <= decay(age) <= 1.0)
    && forall a, b :: 0 <= a <= b ==> decay(b) <= decay(a)
  }

  function FirstKnown(a: Option<int>, b: Option<int>): Option<int> {
    if a.Some? then a else b
  }

  function DeriveExpiresAt(f: Facts): Option<int> {
    if f.expiresAt.Some? then f.expiresAt
    else if f.deadline.Some? then f.deadline
    else
      match FirstKnown(f.postedAt, f.discoveredAt)
      case None => None
      case Some(anchor) => Some(anchor + TtlDays(f.category) * DAY)
  }

  /** Whole days until expiry, negative once past. */
  function DaysUntil(delta: int): int {
    if delta >= 0 then delta / DAY else -(-delta / DAY + 1)
  }

  function Max(a: int, b: int): int {
    if a >= b then a else b
  }

  function Age(f: Facts, now: int): Option<int> {
    match FirstKnown(FirstKnown(f.lastVerifiedAt, f.discoveredAt), f.postedAt)
    case None => None
    case Some(anchor) => Some(Max(now - anchor, 0))
  }

  function Trust(f: Facts, now: int, decay: Decay): real {
    match Age(f, now)
    case None => 0.5
    case Some(age) => decay(age)
  }

  /** The last seven days damp the score. */
  function Damping(daysRemaining: Option<int>): real {
    if daysRemaining.Some? && daysRemaining.value <= 7 then 0.5 + Max(daysRemaining.value, 0) as real / 14.0 else 1.0
  }

  function Clamp(x: real): real {
    var low := if x >= 0.0 then x else 0.0;
    if low <= 1.0 then low else 1.0
  }

  function Damped(trust: real, damping: real): real {
    trust * damping
  }

  function Rounded(trust: real, damping: real): int {
    HalfEven(Clamp(Damped(trust, damping)), 10000)
  }

  function Assess(f: Facts, now: int, decay: Decay): Assessment {
    var expiry := DeriveExpiresAt(f);
    var days := if expiry.Some? then Some(DaysUntil(expiry.value - now)) else None;
    if expiry.Some? && now > expiry.value then Assessment(0, expiry, true, days)
    else Assessment(Rounded(Trust(f, now, decay), Damping(days)), expiry, false, days)
  }

  lemma DaysMonotone(a: int, b: int)
    requires a <= b
    ensures DaysUntil(a) <= DaysUntil(b)
  {}

  lemma DampingMonotone(a: int, b: int)
    requires a <= b
    ensures 0.5 <= Damping(Some(a)) <= Damping(Some(b)) <= 1.0
  {}

  lemma TrustFalls(f: Facts, now: int, later: int, decay: Decay)
    requires IsDecay(decay) && now <= later
    ensures 0.0 <= Trust(f, later, decay) <= Trust(f, now, decay) <= 1.0
  {}

  lemma RoundedMonotone(a: real, b: real, c: real, d: real)
    requires 0.0 <= a <= b && 0.0 <= c <= d
    ensures Rounded(a, c) <= Rounded(b, d)
  {
    ProductMonotone(a, b, c, d);
    HalfEvenMonotone(Clamp(a * c), Clamp(b * d), 10000);
  }

  lemma ProductMonotone(a: real, b: real, c: real, d: real)
    requires 0.0 <= a <= b && 0.0 <= c <= d
    ensures a * c <= b * d
  {
    assert a * c <= b * c;
    assert b * c <= b * d;
  }

  lemma RoundedInRange(trust: real, damping: real)
    ensures 0 <= Rounded(trust, damping) <= 10000
  {
    HalfEvenMonotone(0.0, Clamp(trust * damping), 10000);
    HalfEvenMonotone(Clamp(trust * damping), 1.0, 10000);
  }

  lemma ScoreInRange(f: Facts, now: int, decay: Decay)
    ensures 0 <= Assess(f, now, decay).score <= 10000
  {
    RoundedInRange(Trust(f, now, decay), Damping(Assess(f, now, decay).daysRemaining));
  }

  /**
   With the stored facts fixed, time only lowers the score, across the decay, the damping and
   expiry; once expired, always expired; and the expiry date does not depend on when it is asked for.
   */
  lemma FreshnessOnlyFalls(f: Facts, now: int, later: int, decay: Decay)
    requires IsDecay(decay) && now <= later
    ensures var a, b := Assess(f, now, decay), Assess(f, later, decay);
      && b.score <= a.score
      && (a.isExpired ==> b.isExpired)
      && b.expiresAt == a.expiresAt
      && (b.isExpired ==> b.score == 0)
  {
    ScoreInRange(f, now, decay);
    var expiry := DeriveExpiresAt(f);
    if !Assess(f, later, decay).isExpired {
      TrustFalls(f, now, later, decay);
      if expiry.Some? {
        DaysMonotone(expiry.value - later, expiry.value - now);
        DampingMonotone(DaysUntil(expiry.value - later), DaysUntil(expiry.value - now));
      }
      RoundedMonotone(Trust(f, later, decay), Trust(f, now, decay),
        Damping(Assess(f, later, decay).daysRemaining), Damping(Assess(f, now, decay).daysRemaining));
    }
  }

  /** Verifying a row now never lowers its score, and gives it full trust. */
  lemma VerifyingNeverLowers(f: Facts, now: int, decay: Decay)
    requires IsDecay(decay) && decay(0) == 1.0
    ensures var verified := f.(lastVerifiedAt := Some(now));
      && Assess(f, now, decay).score <= Assess(verified, now, decay).score
      && Assess(f, now, decay).isExpired == Assess(verified, now, decay).isExpired
      && Trust(verified, now, decay) == 1.0
  {
    var damping := Damping(Assess(f, now, decay).daysRemaining);
    assert 0.0 <= Trust(f, now, decay) <= 1.0;
    assert damping >= 0.0;
    RoundedMonotone(Trust(f, now, decay), 1.0, damping, damping);
  }

  /** An expiry once stored answers every later question. */
  lemma ExpiryIsFixed(f: Facts, now: int, decay: Decay)
    requires f.expiresAt.Some?
    ensures Assess(f, now, decay).expiresAt == f.expiresAt
  {}

  // ---- What the dates are ----------------------------------------------------------

  /** A stored expiry wins, then a stated deadline, then the usual lifetime from posting, else from discovery. */
  lemma ExpiryPriority(f: Facts)
    ensures f.expiresAt.Some? ==> DeriveExpiresAt(f) == f.expiresAt
    ensures f.expiresAt.None? && f.deadline.Some? ==> DeriveExpiresAt(f) == f.deadline
    ensures f.expiresAt.None? && f.deadline.None? ==>
      && (f.postedAt.Some? ==> DeriveExpiresAt(f) == Some(f.postedAt.value + TtlDays(f.category) * 86_400_000_000))
      && (f.postedAt.None? && f.discoveredAt.Some? ==>
        DeriveExpiresAt(f) == Some(f.discoveredAt.value + TtlDays(f.category) * 86_400_000_000))
      && (f.postedAt.None? && f.discoveredAt.None? ==> DeriveExpiresAt(f) == None)
  {}

  /** The usual lifetimes, in days. */
  lemma Lifetimes(c: Category)
    ensures TtlDays(c) == 30 <==> c == Freelance
    ensures TtlDays(c) == 45 <==> c in {Consulting, Client}
    ensures TtlDays(c) == 60 <==> c == Job
    ensures TtlDays(c) == 90 <==> c in {Startup, Competition, Speaking, Business, Other}
    ensures TtlDays(c) == 120 <==> c in {Accelerator, Incubator, Conference, Research, Partnership}
    ensures TtlDays(c) == 180 <==> c in {Grant, Fellowship, Scholarship, OpenSource}
  {}

  /** Expired is strictly later than the expiry date, and scores nothing. */
  lemma ExpiredIff(f: Facts, now: int, decay: Decay)
    ensures Assess(f, now, decay).expiresAt == DeriveExpiresAt(f)
    ensures Assess(f, now, decay).isExpired <==> DeriveExpiresAt(f).Some? && now > DeriveExpiresAt(f).value
    ensures Assess(f, now, decay).isExpired ==> Assess(f, now, decay).score == 0
  {}

  /** Whole days left, or one more than the whole days gone by, counted negatively. */
  lemma DaysUntilIs(delta: int)
    ensures var d := DaysUntil(delta);
      && (delta >= 0 ==> d >= 0 && d * DAY <= delta < (d + 1) * DAY)
      && (delta < 0 ==> d < 0 && (-d - 1) * DAY <= -delta < -d * DAY)
  {}

  /** Information is dated by its verification, else its discovery, else its posting; undated it is half trusted. */
  lemma TrustIsDated(f: Facts, now: int, decay: Decay)
    ensures f.lastVerifiedAt.Some? ==> Trust(f, now, decay) == decay(Max(now - f.lastVerifiedAt.value, 0))
    ensures f.lastVerifiedAt.None? && f.discoveredAt.Some? ==>
      Trust(f, now, decay) == decay(Max(now - f.discoveredAt.value, 0))
    ensures f.lastVerifiedAt.None? && f.discoveredAt.None? && f.postedAt.Some? ==>
      Trust(f, now, decay) == decay(Max(now - f.postedAt.value, 0))
    ensures f.lastVerifiedAt.None? && f.discoveredAt.None? && f.postedAt.None? ==> Trust(f, now, decay) == 0.5
  {}

  lemma RoundedIs(trust: real, damping: real)
    requires 0.0 <= trust <= 1.0 && 0.0 <= damping <= 1.0
    ensures Rounded(trust, damping) == HalfEven(Damped(trust, damping), 10000)
  {
    ProductMonotone(0.0, trust, 0.0, damping);
    ProductMonotone(trust, 1.0, damping, 1.0);
  }

  /** Nothing is damped more than a week ahead; on the last day half is, and a fourteenth less a day before. */
  lemma DampingIs(days: int)
    ensures Damping(None) == 1.0
    ensures days >= 8 ==> Damping(Some(days)) == 1.0
    ensures 0 <= days <= 7 ==> Damping(Some(days)) == (7 + days) as real / 14.0
  {}

  /** The days remaining count down to the expiry date and are not negative before it. */
  lemma DaysLeft(f: Facts, now: int, decay: Decay)
    ensures var a := Assess(f, now, decay);
      && (a.daysRemaining.Some? <==> a.expiresAt.Some?)
      && (a.expiresAt.Some? ==> a.daysRemaining == Some(DaysUntil(a.expiresAt.value - now)))
      && (a.expiresAt.Some? && !a.isExpired ==> a.daysRemaining.value >= 0)
  {}

  lemma DampingInUnit(days: Option<int>)
    requires days.Some? ==> days.value >= 0
    ensures 0.0 <= Damping(days) <= 1.0
  {
    if days.Some? {
      DampingMonotone(0, days.value);
    }
  }

  /** Before expiry the score is the damped trust, rounded half even to four places. */
  lemma DampedScore(f: Facts, now: int, decay: Decay)
    requires IsDecay(decay) && !Assess(f, now, decay).isExpired
    ensures Assess(f, now, decay).score ==
      HalfEven(Damped(Trust(f, now, decay), Damping(Assess(f, now, decay).daysRemaining)), 10000)
  {
    var days := Assess(f, now, decay).daysRemaining;
    TrustFalls(f, now, now, decay);
    DaysLeft(f, now, decay);
    DampingInUnit(days);
    ScoreIsRounded(f, now, decay);
    RoundedIs(Trust(f, now, decay), Damping(days));
  }

  lemma ScoreIsRounded(f: Facts, now: int, decay: Decay)
    requires !Assess(f, now, decay).isExpired
    ensures Assess(f, now, decay).score == Rounded(Trust(f, now, decay), Damping(Assess(f, now, decay).daysRemaining))
  {}
}
