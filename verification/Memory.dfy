/** Append-only memory: a new semantic record supersedes the active one of its key. */
module Memory {
  import opened Wrappers
  import opened Text

  datatype Kind = Semantic | Episodic | OutcomeMemory

  /** A record is identified by its position; `validTo` closes it. */
  datatype Record = Record(
    user: nat, kind: Kind, key: Option<string>, content: string, validTo: Option<int>, supersededBy: Option<nat>)

  type Records = seq<Record>

  predicate Active(r: Record, user: nat, key: string) {
    r.kind == Semantic && r.user == user && r.key == Some(key) && r.validTo.None?
  }

  predicate HasActive(rs: Records, user: nat, key: string) {
    exists i :: 0 <= i < |rs| && Active(rs[i], user, key)
  }

  /** What the lookup, which has no order, may answer. */
  predicate IsLookup(found: Option<nat>, rs: Records, user: nat, key: string) {
    match found
    case None => !HasActive(rs, user, key)
    case Some(i) => i < |rs| && Active(rs[i], user, key)
  }

  function NewRecord(user: nat, key: string, content: string): Record {
    Record(user, Semantic, Some(Strip(key)), content, None, None)
  }

  /** A semantic write, given what the lookup of the raw key answered. */
  function Write(rs: Records, user: nat, key: string, content: string, found: Option<nat>, now: int): Records
    requires IsLookup(found, rs, user, key)
  {
    if Strip(key) == "" then rs
    else if found.Some? && rs[found.value].content == content then rs
    else
      var added := rs + [NewRecord(user, key, content)];
      if found.None? then added
      else added[found.value := rs[found.value].(validTo := Some(now), supersededBy := Some(|rs|))]
  }

  /**
   What a write writes: nothing for a blank key or content that is active already; otherwise one new
   active record, and the record the lookup found is closed now and linked to it.
   */
  lemma WriteEffect(rs: Records, user: nat, key: string, content: string, found: Option<nat>, now: int)
    requires IsLookup(found, rs, user, key)
    ensures var rs' := Write(rs, user, key, content, found, now);
      var same := found.Some? && rs[found.value].content == content;
      && (rs' == rs <==> Strip(key) == "" || same)
      && (rs' != rs ==>
        && |rs'| == |rs| + 1
        && rs'[|rs|] == Record(user, Semantic, Some(Strip(key)), content, None, None)
        && forall i :: 0 <= i < |rs| ==>
          rs'[i] == if found == Some(i) then rs[i].(validTo := Some(now), supersededBy := Some(|rs|)) else rs[i])
  {
    var rs' := Write(rs, user, key, content, found, now);
    if Strip(key) != "" && !(found.Some? && rs[found.value].content == content) {
      assert |rs'| == |rs| + 1;
    }
  }

  // ---- The chain -------------------------------------------------------------------

  predicate SameKey(a: Record, b: Record) {
    a.kind == Semantic && b.kind == Semantic && a.user == b.user && a.key == b.key
  }

  predicate UniqueActive(rs: Records) {
    forall i, j :: 0 <= i < j < |rs| && rs[i].validTo.None? && rs[j].validTo.None? ==> !SameKey(rs[i], rs[j])
  }

  /** A closed record links to the next of its key, whose content differs; an active one is the last of its key. */
  predicate LinkOk(rs: Records, i: nat)
    requires i < |rs|
  {
    var r := rs[i];
    && (r.validTo.Some? <==> r.supersededBy.Some?)
    && match r.supersededBy
      case Some(t) =>
        && i < t < |rs|
        && SameKey(r, rs[t]) && r.content != rs[t].content
        && forall j :: i < j < t ==> !SameKey(r, rs[j])
      case None => forall j :: i < j < |rs| ==> !SameKey(r, rs[j])
  }

  predicate KeysTrimmed(rs: Records) {
    forall i :: 0 <= i < |rs| && rs[i].kind == Semantic ==> rs[i].key.Some? && Trimmed(rs[i].key.value)
  }

  predicate Chained(rs: Records) {
    KeysTrimmed(rs) && forall i :: 0 <= i < |rs| ==> LinkOk(rs, i)
  }

  /** Following the links from a record. */
  function Head(rs: Records, i: nat): (h: nat)
    requires i < |rs| && Chained(rs)
    ensures i <= h < |rs|
    decreases |rs| - i
  {
    assert LinkOk(rs, i);
    if rs[i].supersededBy.Some? then Head(rs, rs[i].supersededBy.value) else i
  }

  lemma ChainedIsUnique(rs: Records)
    requires Chained(rs)
    ensures UniqueActive(rs)
  {
    forall i, j | 0 <= i < j < |rs| && rs[i].validTo.None? && rs[j].validTo.None?
      ensures !SameKey(rs[i], rs[j])
    {
      assert LinkOk(rs, i);
    }
  }

  /** From any semantic record the links lead to the one active record of the same user and key. */
  lemma {:induction false} HeadIsActive(rs: Records, i: nat)
    requires i < |rs| && Chained(rs) && rs[i].kind == Semantic
    ensures var h := Head(rs, i);
      && rs[h].validTo.None? && SameKey(rs[i], rs[h])
      && forall j :: 0 <= j < |rs| && rs[j].validTo.None? && SameKey(rs[i], rs[j]) ==> j == h
    decreases |rs| - i
  {
    assert LinkOk(rs, i);
    ChainedIsUnique(rs);
    if rs[i].supersededBy.Some? {
      HeadIsActive(rs, rs[i].supersededBy.value);
    }
  }

  /** Nothing but the closing of a record ever changes, and a closed record stays as it is. */
  predicate Preserves(rs: Records, rs': Records) {
    && |rs| <= |rs'|
    && forall i :: 0 <= i < |rs| ==>
      && rs'[i].(validTo := rs[i].validTo, supersededBy := rs[i].supersededBy) == rs[i]
      && (rs[i].validTo.Some? && rs[i].supersededBy.Some? ==> rs'[i] == rs[i])
  }

  // ---- Writes -----------------------------------------------------------------------

  /** A write appends to the chain of its key when the key is trimmed, or is new. */
  predicate Extends(rs: Records, user: nat, key: string) {
    Trimmed(key) || !HasActive(rs, user, Strip(key))
  }

  /** Without an active record there is no record of a key at all. */
  lemma NoActiveNoRecord(rs: Records, user: nat, key: string)
    requires Chained(rs) && !HasActive(rs, user, key)
    ensures forall i :: 0 <= i < |rs| ==> !(rs[i].kind == Semantic && rs[i].user == user && rs[i].key == Some(key))
  {
    forall i | 0 <= i < |rs|
      ensures !(rs[i].kind == Semantic && rs[i].user == user && rs[i].key == Some(key))
    {
      if rs[i].kind == Semantic && rs[i].user == user && rs[i].key == Some(key) {
        HeadIsActive(rs, i);
        assert Active(rs[Head(rs, i)], user, key);
      }
    }
  }

  /** Stored keys are trimmed, so a lookup by an untrimmed key finds nothing. */
  lemma UntrimmedFindsNothing(rs: Records, user: nat, key: string)
    requires KeysTrimmed(rs) && !Trimmed(key)
    ensures !HasActive(rs, user, key)
  {}

  lemma AppendChained(rs: Records, r: Record)
    requires Chained(rs) && r.validTo.None? && r.supersededBy.None?
    requires r.kind == Semantic ==> r.key.Some? && Trimmed(r.key.value)
    requires forall i :: 0 <= i < |rs| ==> !SameKey(rs[i], r)
    ensures Chained(rs + [r])
  {
    var rs' := rs + [r];
    forall i | 0 <= i < |rs'|
      ensures LinkOk(rs', i)
    {
      if i < |rs| {
        assert LinkOk(rs, i);
      }
    }
  }

  lemma SupersedeChained(rs: Records, i: nat, r: Record, now: int)
    requires Chained(rs) && i < |rs| && rs[i].validTo.None? && rs[i].kind == Semantic
    requires r.validTo.None? && r.supersededBy.None? && SameKey(rs[i], r) && r.content != rs[i].content
    ensures Chained((rs + [r])[i := rs[i].(validTo := Some(now), supersededBy := Some(|rs|))])
  {
    var rs' := (rs + [r])[i := rs[i].(validTo := Some(now), supersededBy := Some(|rs|))];
    ChainedIsUnique(rs);
    forall j | 0 <= j < |rs'|
      ensures LinkOk(rs', j)
    {
      if j < |rs| {
        assert LinkOk(rs, j);
        if j == i {
          assert forall k :: i < k < |rs| ==> rs'[k] == rs[k];
        } else {
          assert forall k :: 0 <= k < |rs| ==> SameKey(rs'[j], rs'[k]) == SameKey(rs[j], rs[k]);
        }
      }
    }
    assert KeysTrimmed(rs');
  }

  lemma WriteKeepsChain(rs: Records, user: nat, key: string, content: string, found: Option<nat>, now: int)
    requires Chained(rs) && IsLookup(found, rs, user, key) && Extends(rs, user, key)
    ensures Chained(Write(rs, user, key, content, found, now))
    ensures Preserves(rs, Write(rs, user, key, content, found, now))
  {
    if Strip(key) != "" {
      var r := NewRecord(user, key, content);
      if found.None? {
        NoActiveNoRecord(rs, user, Strip(key));
        AppendChained(rs, r);
      } else if rs[found.value].content != content {
        if !Trimmed(key) {
          UntrimmedFindsNothing(rs, user, key);
        }
        SupersedeChained(rs, found.value, r, now);
      }
    }
  }

  /**
   The stored key is stripped but the lookup uses the raw key: a non-blank write keeps active
   records unique exactly when its key is trimmed or has no active record yet.
   */
  lemma UniqueIff(rs: Records, user: nat, key: string, content: string, found: Option<nat>, now: int)
    requires Chained(rs) && IsLookup(found, rs, user, key) && Strip(key) != ""
    ensures UniqueActive(Write(rs, user, key, content, found, now)) <==> Extends(rs, user, key)
  {
    if Extends(rs, user, key) {
      WriteKeepsChain(rs, user, key, content, found, now);
      ChainedIsUnique(Write(rs, user, key, content, found, now));
    } else {
      UntrimmedFindsNothing(rs, user, key);
      var i :| 0 <= i < |rs| && Active(rs[i], user, Strip(key));
      var rs' := Write(rs, user, key, content, found, now);
      assert rs'[i] == rs[i] && rs'[|rs|] == NewRecord(user, key, content);
      assert SameKey(rs'[i], rs'[|rs|]);
    }
  }

  /** The failing case is real: the same key with and without a blank leaves two active records. */
  lemma UntrimmedKeyForks()
    ensures var one := Write([], 0, "k", "a", None, 1);
      !HasActive(one, 0, " k") && !UniqueActive(Write(one, 0, " k", "b", None, 2))
  {
    var one := Write([], 0, "k", "a", None, 1);
    assert Trimmed("k") && Strip("k") == "k";
    var t := " k";
    RunIs(Space, t, 1);
    assert t[1..] == "k";
    assert Strip(t) == "k";
    assert !HasActive(one, 0, t);
    var two := Write(one, 0, t, "b", None, 2);
    assert two == one + [NewRecord(0, t, "b")];
    assert SameKey(two[0], two[1]);
  }

  // ---- Whole histories -----------------------------------------------------------------

  datatype Op =
    | OpSemantic(user: nat, key: string, content: string, found: Option<nat>, now: int)
    | OpOther(record: Record)

  /** The lookup answered truthfully, the key extends its chain, and other writes are not semantic. */
  predicate Possible(rs: Records, op: Op) {
    match op
    case OpSemantic(user, key, content, found, now) => IsLookup(found, rs, user, key) && Extends(rs, user, key)
    case OpOther(r) => r.kind != Semantic && r.validTo.None? && r.supersededBy.None?
  }

  function Apply(rs: Records, op: Op): Records
    requires Possible(rs, op)
  {
    match op
    case OpSemantic(user, key, content, found, now) => Write(rs, user, key, content, found, now)
    case OpOther(r) => rs + [r]
  }

  predicate IsRun(states: seq<Records>, ops: seq<Op>) {
    && |states| == |ops| + 1
    && forall k :: 0 <= k < |ops| ==> Possible(states[k], ops[k]) && states[k + 1] == Apply(states[k], ops[k])
  }

  /** After any history every key has one chain that ends at its active record, and no content ever changed. */
  lemma {:induction false} HistoryIsChained(states: seq<Records>, ops: seq<Op>)
    requires IsRun(states, ops) && states[0] == []
    ensures forall k :: 0 <= k < |states| ==> Chained(states[k]) && UniqueActive(states[k])
    ensures forall k :: 0 <= k < |ops| ==> Preserves(states[k], states[k + 1])
  {
    if ops != [] {
      var n := |ops| - 1;
      HistoryIsChained(states[..n + 1], ops[..n]);
      assert states[..n + 1][n] == states[n];
      StepIsChained(states[n], ops[n]);
      ChainedIsUnique(states[n + 1]);
      forall k | 0 <= k < |ops|
        ensures Preserves(states[k], states[k + 1])
      {
        if k < n {
          assert states[..n + 1][k] == states[k] && states[..n + 1][k + 1] == states[k + 1];
        }
      }
    }
  }

  lemma StepIsChained(rs: Records, op: Op)
    requires Chained(rs) && Possible(rs, op)
    ensures Chained(Apply(rs, op)) && Preserves(rs, Apply(rs, op))
  {
    match op
    case OpSemantic(user, key, content, found, now) => WriteKeepsChain(rs, user, key, content, found, now);
    case OpOther(r) => AppendChained(rs, r);
  }

  // ---- The service ------------------------------------------------------------------------

  predicate Recallable(r: Record, user: nat, kind: Kind) {
    r.user == user && r.kind == kind && r.validTo.None?
  }

  class MemoryService {
    var records: seq<Record>

    constructor ()
      ensures records == []
    {
      records := [];
    }

    /** Any active record of the key. */
    method ActiveSemantic(user: nat, key: string) returns (found: Option<nat>)
      ensures IsLookup(found, records, user, key)
    {
      if i: nat :| i < |records| && Active(records[i], user, key) {
        return Some(i);
      }
      found := None;
    }

    /** `Err` is the validation error of a blank key; otherwise the identity of the active record. */
    method WriteSemantic(user: nat, key: string, content: string, now: int)
      returns (r: Result<nat, string>, ghost found: Option<nat>)
      modifies this
      ensures IsLookup(found, old(records), user, key)
      ensures r.Err? <==> Strip(key) == ""
      ensures records == Write(old(records), user, key, content, found, now)
      ensures r.Ok? ==> r.value < |records| && records[r.value].content == content && records[r.value].validTo.None?
    {
      if Strip(key) == "" {
        found := LookupExists(records, user, key);
        return Err("Memory key is required"), found;
      }
      var existing := ActiveSemantic(user, key);
      found := existing;
      if existing.Some? && records[existing.value].content == content {
        return Ok(existing.value), found;
      }
      var id := |records|;
      records := records + [NewRecord(user, key, content)];
      if existing.Some? {
        records := records[existing.value := records[existing.value].(validTo := Some(now), supersededBy := Some(id))];
      }
      r := Ok(id);
    }

    /** Episodic and outcome records are only appended. */
    method WriteOther(user: nat, kind: Kind, content: string) returns (id: nat)
      requires kind != Semantic
      modifies this
      ensures id == |old(records)| && records == old(records) + [Record(user, kind, None, content, None, None)]
    {
      id := |records|;
      records := records + [Record(user, kind, None, content, None, None)];
    }

    /** The newest valid records of a kind, newest first: `r` lists positions. */
    method Recall(user: nat, kind: Kind, limit: nat) returns (r: seq<nat>)
      ensures |r| <= limit
      ensures forall k :: 0 <= k < |r| ==> r[k] < |records| && Recallable(records[r[k]], user, kind)
      ensures forall k :: 0 <= k < |r| - 1 ==> r[k] > r[k + 1]
      ensures forall i :: 0 <= i < |records| && Recallable(records[i], user, kind) && i !in r ==>
        |r| == limit && forall k :: 0 <= k < |r| ==> r[k] > i
    {
      r := [];
      var n := |records|;
      while n > 0 && |r| < limit
        invariant 0 <= n <= |records| && |r| <= limit
        invariant forall k :: 0 <= k < |r| ==> n <= r[k] < |records| && Recallable(records[r[k]], user, kind)
        invariant forall k :: 0 <= k < |r| - 1 ==> r[k] > r[k + 1]
        invariant forall i :: n <= i < |records| && Recallable(records[i], user, kind) ==> i in r
      {
        n := n - 1;
        if Recallable(records[n], user, kind) {
          r := r + [n];
        }
      }
    }
  }

  lemma LookupExists(rs: Records, user: nat, key: string) returns (found: Option<nat>)
    ensures IsLookup(found, rs, user, key)
  {
    if i: nat :| i < |rs| && Active(rs[i], user, key) {
      found := Some(i);
    } else {
      found := None;
    }
  }
}
