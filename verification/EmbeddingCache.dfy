/** A content-keyed cache in front of an embedding provider. */
module EmbeddingCache {
  import opened Wrappers

  type Vector = seq<real>

  /** A deterministic provider that embeds each text on its own, and the cache key of a text. */
  datatype Provider = Provider(embed: string -> Vector, key: string -> string)

  /** Distinct texts have distinct keys. */
  ghost predicate InjectiveKeys(p: Provider) {
    forall a, b :: p.key(a) == p.key(b) ==> a == b
  }

  /** The cache holds only true embeddings. */
  ghost predicate Truthful(cache: map<string, Vector>, p: Provider) {
    forall t :: p.key(t) in cache ==> cache[p.key(t)] == p.embed(t)
  }

  /** A batch sent to the inner provider. */
  function EmbedAll(texts: seq<string>, p: Provider): (r: seq<Vector>)
    ensures |r| == |texts|
  {
    seq(|texts|, i requires 0 <= i < |texts| => p.embed(texts[i]))
  }

  /** The positions whose text is not cached, in order; a repeated text is listed each time. */
  function Missing(texts: seq<string>, cache: map<string, Vector>, p: Provider): (r: seq<nat>)
    ensures forall k :: 0 <= k < |r| ==> r[k] < |texts|
  {
    if texts == [] then []
    else
      var n := |texts| - 1;
      Missing(texts[..n], cache, p) + if p.key(texts[n]) in cache then [] else [n]
  }

  lemma {:induction false} MissingIff(texts: seq<string>, cache: map<string, Vector>, p: Provider)
    ensures forall i :: 0 <= i < |texts| ==> (i in Missing(texts, cache, p) <==> p.key(texts[i]) !in cache)
    ensures forall j, k :: 0 <= j < k < |Missing(texts, cache, p)| ==>
      Missing(texts, cache, p)[j] < Missing(texts, cache, p)[k]
  {
    if texts != [] {
      MissingIff(texts[..|texts| - 1], cache, p);
    }
  }

  function Select(texts: seq<string>, positions: seq<nat>): (r: seq<string>)
    requires forall k :: 0 <= k < |positions| ==> positions[k] < |texts|
    ensures |r| == |positions|
  {
    seq(|positions|, k requires 0 <= k < |positions| => texts[positions[k]])
  }

  /** The cache after a batch: old entries stay, and every text of the batch is cached. */
  ghost predicate Filled(cache: map<string, Vector>, cache': map<string, Vector>, texts: seq<string>, p: Provider) {
    && (forall k :: k in cache ==> k in cache' && cache'[k] == cache[k])
    && (forall i :: 0 <= i < |texts| ==> p.key(texts[i]) in cache')
    && (forall k :: k in cache' ==> k in cache || exists i :: 0 <= i < |texts| && p.key(texts[i]) == k)
  }

  class CachedProvider {
    const inner: Provider
    var memory: map<string, Vector>

    constructor (inner: Provider)
      ensures this.inner == inner && memory == map[]
    {
      this.inner, memory := inner, map[];
    }

    /** The first loop: what is cached, and what has to be forwarded. */
    method Probe(texts: seq<string>) returns (cached: map<nat, Vector>, missing: seq<nat>, forwarded: seq<string>)
      requires Truthful(memory, inner)
      ensures missing == Missing(texts, memory, inner) && forwarded == Select(texts, missing)
      ensures forall k: nat :: k in cached <==> k < |texts| && inner.key(texts[k]) in memory
      ensures forall k :: k in cached ==> cached[k] == inner.embed(texts[k])
    {
      cached, missing, forwarded := map[], [], [];
      for i := 0 to |texts|
        invariant missing == Missing(texts[..i], memory, inner)
        invariant forwarded == Select(texts[..i], missing)
        invariant forall k: nat :: k in cached <==> k < i && inner.key(texts[k]) in memory
        invariant forall k :: k in cached ==> cached[k] == inner.embed(texts[k])
      {
        assert texts[..i + 1][..i] == texts[..i];
        var key := inner.key(texts[i]);
        if key in memory {
          cached := cached[i := memory[key]];
        } else {
          missing := missing + [i];
          forwarded := forwarded + [texts[i]];
        }
      }
      assert texts[..|texts|] == texts;
    }

    /** The second loop: the new vectors go into the answer and into the cache. */
    method Fill(texts: seq<string>, found: map<nat, Vector>, missing: seq<nat>, vectors: seq<Vector>)
      returns (cached: map<nat, Vector>)
      requires InjectiveKeys(inner) && Truthful(memory, inner)
      requires |vectors| == |missing| && forall k :: 0 <= k < |missing| ==>
        missing[k] < |texts| && vectors[k] == inner.embed(texts[missing[k]])
      requires forall j :: j in found ==> j < |texts| && found[j] == inner.embed(texts[j])
      modifies this
      ensures Truthful(memory, inner) && Filled(old(memory), memory, Select(texts, missing), inner)
      ensures forall j: nat :: j in cached <==> j in found || j in missing
      ensures forall j :: j in cached ==> cached[j] == inner.embed(texts[j])
    {
      cached := found;
      for k := 0 to |missing|
        invariant forall j: nat :: j in cached <==> j in found || j in missing[..k]
        invariant forall j :: j in cached ==> j < |texts| && cached[j] == inner.embed(texts[j])
        invariant Truthful(memory, inner)
        invariant Filled(old(memory), memory, Select(texts, missing)[..k], inner)
      {
        var i := missing[k];
        assert missing[..k + 1] == missing[..k] + [i];
        FilledStep(old(memory), memory, Select(texts, missing), k, inner);
        cached := cached[i := vectors[k]];
        memory := memory[inner.key(texts[i]) := vectors[k]];
      }
      assert missing[..|missing|] == missing;
      assert Select(texts, missing)[..|missing|] == Select(texts, missing);
    }

    /**
     Embeds a batch: every result is the inner embedding of its text, only the positions that were not
     cached are forwarded, in order, and the cache keeps holding only true embeddings.
     */
    method Embed(texts: seq<string>) returns (r: seq<Vector>, forwarded: seq<string>)
      requires InjectiveKeys(inner) && Truthful(memory, inner)
      modifies this
      ensures r == EmbedAll(texts, inner)
      ensures forwarded == Select(texts, Missing(texts, old(memory), inner))
      ensures Truthful(memory, inner) && Filled(old(memory), memory, texts, inner)
    {
      if texts == [] {
        return [], [];
      }
      var cached, missing, toEmbed := Probe(texts);
      forwarded := toEmbed;
      if toEmbed != [] {
        var vectors := EmbedAll(toEmbed, inner);
        cached := Fill(texts, cached, missing, vectors);
      }
      CoversBatch(texts, old(memory), inner, cached.Keys);
      r := seq(|texts|, i requires 0 <= i < |texts| => cached[i]);
      FilledBatch(old(memory), memory, texts, missing, inner);
    }

    /** A cache entry that expires between batches. */
    method Evict(key: string)
      requires Truthful(memory, inner)
      modifies this
      ensures memory == old(memory) - {key} && Truthful(memory, inner)
    {
      memory := memory - {key};
    }
  }

  /** Cached and missing positions together are all positions. */
  lemma CoversBatch(texts: seq<string>, cache: map<string, Vector>, p: Provider, have: set<nat>)
    requires forall j: nat :: j in have <==>
      (j < |texts| && p.key(texts[j]) in cache) || j in Missing(texts, cache, p)
    ensures forall j: nat :: j < |texts| ==> j in have
  {
    MissingIff(texts, cache, p);
  }

  lemma FilledStep(cache: map<string, Vector>, now: map<string, Vector>, texts: seq<string>, k: nat, p: Provider)
    requires k < |texts| && Filled(cache, now, texts[..k], p) && InjectiveKeys(p)
    requires Truthful(cache, p)
    ensures Filled(cache, now[p.key(texts[k]) := p.embed(texts[k])], texts[..k + 1], p)
  {
    var now' := now[p.key(texts[k]) := p.embed(texts[k])];
    var before, after := texts[..k], texts[..k + 1];
    assert after == before + [texts[k]];
    forall key | key in now'
      ensures key in cache || exists i :: 0 <= i < |after| && p.key(after[i]) == key
    {
      if key == p.key(texts[k]) {
        assert p.key(after[k]) == key;
      } else if key !in cache {
        var i :| 0 <= i < |before| && p.key(before[i]) == key;
        assert p.key(after[i]) == key;
      }
    }
  }

  /** Filling in the missing positions covers the whole batch. */
  lemma FilledBatch(cache: map<string, Vector>, now: map<string, Vector>, texts: seq<string>,
    missing: seq<nat>, p: Provider)
    requires missing == Missing(texts, cache, p) && (missing == [] ==> now == cache)
    requires Filled(cache, now, Select(texts, missing), p)
    ensures Filled(cache, now, texts, p)
  {
    MissingIff(texts, cache, p);
    forall i | 0 <= i < |texts|
      ensures p.key(texts[i]) in now
    {
      if p.key(texts[i]) !in cache {
        assert i in missing;
        var k :| 0 <= k < |missing| && missing[k] == i;
        assert Select(texts, missing)[k] == texts[i];
      }
    }
  }
}
