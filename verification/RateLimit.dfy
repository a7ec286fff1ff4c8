/** The fixed-window rate limiter: a local map of buckets with lazy eviction, used when the
    shared counter is disabled or fails. */
module RateLimit {

  const CLEANUP_THRESHOLD := 512

  datatype Bucket = Bucket(window: int, count: nat)

  /** What becomes of a request's increment of the shared counter: counted and answered,
      counted with the answer lost, or not applied at all. */
  datatype Fate = Answered | AnswerLost | NotApplied

  /** One increment attempt, at a time in seconds. */
  datatype Hit =
    | SharedHit(key: string, second: nat, fate: Fate)
    | LocalHit(key: string, second: nat)

  function Minute(second: nat): nat { second / 60 }

  /** Is this one of the local counter's increments for the key in the minute? */
  predicate CountsLocally(h: Hit, key: string, minute: nat) {
    h.LocalHit? && h.key == key && Minute(h.second) == minute
  }

  predicate CountsShared(h: Hit, key: string, minute: nat) {
    h.SharedHit? && h.fate != NotApplied && h.key == key && Minute(h.second) == minute
  }

  /** The exact, unbounded counters: one per key and minute. */
  function LocalCount(hits: seq<Hit>, key: string, minute: nat): nat {
    if hits == [] then 0
    else LocalCount(hits[..|hits| - 1], key, minute) + if CountsLocally(hits[|hits| - 1], key, minute) then 1 else 0
  }

  function SharedCount(hits: seq<Hit>, key: string, minute: nat): nat {
    if hits == [] then 0
    else SharedCount(hits[..|hits| - 1], key, minute) + if CountsShared(hits[|hits| - 1], key, minute) then 1 else 0
  }

  /** Does the last hit admit its request?  A shared hit that is not answered decides nothing:
      the request goes on to the local counter. */
  predicate LastAdmits(hits: seq<Hit>, limit: nat)
    requires hits != []
  {
    var h := hits[|hits| - 1];
    match h
    case LocalHit(key, second) => LocalCount(hits, key, Minute(second)) <= limit
    case SharedHit(key, second, fate) => fate == Answered && SharedCount(hits, key, Minute(second)) <= limit
  }

  /** The clock has not gone back behind the local counter's last reading. */
  predicate NotBefore(hits: seq<Hit>, second: nat) {
    forall i :: 0 <= i < |hits| && hits[i].LocalHit? ==> hits[i].second <= second
  }

  /** The buckets tell the truth: each holds the exact count of its window, windows are not in
      the future of `now`, and a key with calls in the minute of `now` or later has its bucket there. */
  ghost predicate Tracks(local: map<string, Bucket>, hits: seq<Hit>) {
    && (forall k :: k in local ==>
                      && 0 <= local[k].window && local[k].count > 0
                      && local[k].count == LocalCount(hits, k, local[k].window))
    && (forall i :: 0 <= i < |hits| && hits[i].LocalHit? && Current(hits, Minute(hits[i].second))
          ==> hits[i].key in local && local[hits[i].key].window == Minute(hits[i].second))
  }

  /** No local hit is later than the minute. */
  predicate Current(hits: seq<Hit>, minute: nat) {
    forall i :: 0 <= i < |hits| && hits[i].LocalHit? ==> Minute(hits[i].second) <= minute
  }

  lemma {:induction false} CountWitness(hits: seq<Hit>, key: string, minute: nat)
    requires LocalCount(hits, key, minute) > 0
    ensures exists i :: 0 <= i < |hits| && CountsLocally(hits[i], key, minute)
  {
    var last := |hits| - 1;
    if CountsLocally(hits[last], key, minute) {
    } else {
      CountWitness(hits[..last], key, minute);
      var i :| 0 <= i < last && CountsLocally(hits[..last][i], key, minute);
      assert CountsLocally(hits[i], key, minute);
    }
  }

  lemma {:induction false} WitnessCounts(hits: seq<Hit>, i: nat, key: string, minute: nat)
    requires i < |hits| && CountsLocally(hits[i], key, minute)
    ensures LocalCount(hits, key, minute) > 0
  {
    var last := |hits| - 1;
    if i < last {
      WitnessCounts(hits[..last], i, key, minute);
    }
  }

  /** For the current minute the bucket is the exact counter. */
  lemma CountIsBucket(local: map<string, Bucket>, hits: seq<Hit>, now: nat)
    requires Tracks(local, hits) && Current(hits, now)
    ensures forall k :: LocalCount(hits, k, now) == if k in local && local[k].window == now then local[k].count else 0
  {
    forall k ensures LocalCount(hits, k, now) == if k in local && local[k].window == now then local[k].count else 0 {
      if LocalCount(hits, k, now) > 0 {
        CountWitness(hits, k, now);
        var i :| 0 <= i < |hits| && CountsLocally(hits[i], k, now);
        assert hits[i].LocalHit? && Current(hits, Minute(hits[i].second));
      }
    }
  }

  /** `kept` is `local` without some buckets of minutes before `now`. */
  ghost predicate Pruned(local: map<string, Bucket>, kept: map<string, Bucket>, now: nat) {
    && (forall k :: k in kept ==> k in local && kept[k] == local[k])
    && (forall k :: k in local && k !in kept ==> local[k].window < now)
  }

  function BucketCount(local: map<string, Bucket>, key: string, now: nat): nat {
    if key in local && local[key].window == now then local[key].count else 0
  }

  /** Counting a call in a pruned map is counting it exactly: eviction is invisible. */
  lemma IncrementTracks(local: map<string, Bucket>, kept: map<string, Bucket>, hits: seq<Hit>, key: string, second: nat)
    requires Tracks(local, hits) && NotBefore(hits, second) && Pruned(local, kept, Minute(second))
    ensures BucketCount(kept, key, Minute(second)) == LocalCount(hits, key, Minute(second))
    ensures Tracks(kept[key := Bucket(Minute(second), BucketCount(kept, key, Minute(second)) + 1)],
                   hits + [LocalHit(key, second)])
  {
    var now, hits' := Minute(second), hits + [LocalHit(key, second)];
    assert Current(hits, now);
    CountIsBucket(local, hits, now);
    var local' := kept[key := Bucket(now, BucketCount(kept, key, now) + 1)];
    assert hits'[..|hits|] == hits;
    forall i | 0 <= i < |hits'| && hits'[i].LocalHit? && Current(hits', Minute(hits'[i].second))
      ensures hits'[i].key in local' && local'[hits'[i].key].window == Minute(hits'[i].second)
    {
      assert Minute(hits'[|hits|].second) == now;
      if i < |hits| {
        assert hits'[i] == hits[i];
      }
    }
  }

  lemma SharedHitTracks(local: map<string, Bucket>, hits: seq<Hit>, h: Hit)
    requires Tracks(local, hits) && h.SharedHit?
    ensures Tracks(local, hits + [h])
  {
    var hits' := hits + [h];
    assert hits'[..|hits|] == hits;
    forall i | 0 <= i < |hits'| && hits'[i].LocalHit? && Current(hits', Minute(hits'[i].second))
      ensures hits'[i].key in local && local[hits'[i].key].window == Minute(hits'[i].second)
    {
      assert hits'[i] == hits[i];
      assert Current(hits, Minute(hits[i].second)) by {
        forall j | 0 <= j < |hits| && hits[j].LocalHit? ensures Minute(hits[j].second) <= Minute(hits[i].second) {
          assert hits'[j] == hits[j];
        }
      }
    }
  }

  /** The keys with local calls in a minute. */
  function KeysIn(hits: seq<Hit>, minute: nat): set<string> {
    set i | 0 <= i < |hits| && hits[i].LocalHit? && Minute(hits[i].second) == minute :: hits[i].key
  }

  class Limiter {
    const limit: nat
    const sharedEnabled: bool
    var local: map<string, Bucket>
    /** The shared counter: an external service, exact as long as it answers. */
    var shared: map<(string, nat), nat>
    ghost var hits: seq<Hit>

    ghost predicate Valid()
      reads this
    {
      && Tracks(local, hits)
      && forall key, minute :: SharedValue(key, minute) == SharedCount(hits, key, minute)
    }

    function SharedValue(key: string, minute: nat): nat
      reads this
    {
      if (key, minute) in shared then shared[(key, minute)] else 0
    }

    constructor (limit: nat, sharedEnabled: bool)
      ensures Valid() && hits == [] && this.limit == limit && this.sharedEnabled == sharedEnabled
    {
      this.limit, this.sharedEnabled := limit, sharedEnabled;
      local, shared, hits := map[], map[], [];
    }

    /** Increments the shared counter, which may fail before or after counting. */
    method Increment(key: string, second: nat) returns (count: nat, ok: bool)
      requires Valid()
      modifies this`shared, this`hits
      ensures Valid()
      ensures if !sharedEnabled then !ok && hits == old(hits)
              else exists fate :: hits == old(hits) + [SharedHit(key, second, fate)] && (ok <==> fate == Answered)
      ensures ok ==> count == SharedCount(hits, key, Minute(second))
    {
      hide Tracks, SharedCount;
      count, ok := 0, false;
      if !sharedEnabled {
        return;
      }
      var applied, answered: bool := *, *;
      ghost var fate := if !applied then NotApplied else if answered then Answered else AnswerLost;
      if applied {
        count := SharedValue(key, Minute(second)) + 1;
        shared := shared[(key, Minute(second)) := count];
      }
      ok := applied && answered;
      SharedHitTracks(local, hits, SharedHit(key, second, fate));
      SharedHitCounts(hits, SharedHit(key, second, fate));
      hits := hits + [SharedHit(key, second, fate)];
    }

    /** Counts a call in the current minute and returns how many there have been: exactly one
        more than the earlier local calls of the key in that minute, however many buckets have
        been evicted.  The map stays small: at most 512 buckets, or none but those of the keys
        called this minute. */
    method IncrementLocal(key: string, second: nat) returns (count: nat)
      requires Valid() && NotBefore(hits, second)
      modifies this`local, this`hits
      ensures Valid() && hits == old(hits) + [LocalHit(key, second)]
      ensures count == LocalCount(old(hits), key, Minute(second)) + 1 == LocalCount(hits, key, Minute(second))
      ensures |local| <= CLEANUP_THRESHOLD || local.Keys == KeysIn(hits, Minute(second))
    {
      hide Tracks, Pruned, NotBefore, LocalCount, SharedCount, KeysIn;
      var now := Minute(second);
      ghost var before := local;
      CleanupLocal(now);
      var value := if key in local then local[key] else Bucket(-1, 0);
      if value.window != now {
        value := Bucket(now, 0);
      }
      value := value.(count := value.count + 1);
      ghost var kept := local;
      local := local[key := value];
      count := value.count;
      CallIsCounted(before, kept, local, hits, key, second);
      SharedCountIgnoresLocal(hits, key, second);
      hits := hits + [LocalHit(key, second)];
    }

    /** Drops the buckets of earlier minutes once there are 512 or more. */
    method CleanupLocal(current: nat)
      modifies this`local
      ensures Pruned(old(local), local, current)
      ensures |old(local)| < CLEANUP_THRESHOLD ==> local == old(local)
      ensures |old(local)| >= CLEANUP_THRESHOLD ==> forall k :: k in local ==> local[k].window >= current
    {
      if |local| < CLEANUP_THRESHOLD {
        return;
      }
      var pending := local.Keys;
      while pending != {}
        invariant Pruned(old(local), local, current)
        invariant forall k :: k in local && k !in pending ==> local[k].window >= current
        invariant pending <= local.Keys
        decreases pending
      {
        var key :| key in pending;
        pending := pending - {key};
        if local[key].window < current {
          local := local - {key};
        }
      }
    }

    /** Admits a request or turns it away.  The shared counter decides if it answers, the
        local one otherwise. */
    method Admit(key: string, sharedSecond: nat, localSecond: nat) returns (admitted: bool, remaining: nat)
      requires Valid() && NotBefore(hits, localSecond)
      modifies this
      ensures Valid() && old(hits) < hits
      ensures if sharedEnabled
              then exists fate :: hits == old(hits) + [SharedHit(key, sharedSecond, fate)]
                                          + if fate == Answered then [] else [LocalHit(key, localSecond)]
              else hits == old(hits) + [LocalHit(key, localSecond)]
      ensures admitted == LastAdmits(hits, limit)
      ensures var last := hits[|hits| - 1];
              var count := if last.SharedHit? then SharedCount(hits, key, Minute(sharedSecond))
                           else LocalCount(hits, key, Minute(localSecond));
              (admitted <==> count <= limit) && (admitted ==> remaining + count == limit)
              && (!admitted ==> remaining == 0)
      ensures forall n :: |old(hits)| < n < |hits| ==> !LastAdmits(hits[..n], limit)
    {
      var count, ok := Increment(key, sharedSecond);
      ghost var mid := hits;
      if !ok {
        count := IncrementLocal(key, localSecond);
      }
      remaining := if count <= limit then limit - count else 0;
      admitted := count <= limit;
      assert hits[..|mid|] == mid;
    }
  }

  lemma SharedHitCounts(hits: seq<Hit>, h: Hit)
    ensures forall k, m :: SharedCount(hits + [h], k, m)
                           == SharedCount(hits, k, m) + if CountsShared(h, k, m) then 1 else 0
  {
    assert (hits + [h])[..|hits|] == hits;
  }

  lemma SharedCountIgnoresLocal(hits: seq<Hit>, key: string, second: nat)
    ensures forall k, m :: SharedCount(hits + [LocalHit(key, second)], k, m) == SharedCount(hits, k, m)
  {
    assert (hits + [LocalHit(key, second)])[..|hits|] == hits;
  }

  /** What a counted call does to buckets and exact counts. */
  lemma CallIsCounted(before: map<string, Bucket>, kept: map<string, Bucket>, after: map<string, Bucket>,
                      hits: seq<Hit>, key: string, second: nat)
    requires Tracks(before, hits) && NotBefore(hits, second) && Pruned(before, kept, Minute(second))
    requires after == kept[key := Bucket(Minute(second), BucketCount(kept, key, Minute(second)) + 1)]
    requires |before| < CLEANUP_THRESHOLD ==> kept == before
    requires |before| >= CLEANUP_THRESHOLD ==> forall k :: k in kept ==> kept[k].window >= Minute(second)
    ensures var hits', now := hits + [LocalHit(key, second)], Minute(second);
            && Tracks(after, hits')
            && after[key].count == LocalCount(hits, key, now) + 1 == LocalCount(hits', key, now)
            && (|after| <= CLEANUP_THRESHOLD || after.Keys == KeysIn(hits', now))
  {
    hide Tracks, Pruned, NotBefore, KeysIn;
    IncrementTracks(before, kept, hits, key, second);
    MapIsSmall(before, kept, after, hits, key, second);
    assert (hits + [LocalHit(key, second)])[..|hits|] == hits;
  }

  lemma MapIsSmall(before: map<string, Bucket>, kept: map<string, Bucket>, after: map<string, Bucket>,
                   hits: seq<Hit>, key: string, second: nat)
    requires Tracks(before, hits) && NotBefore(hits, second) && Pruned(before, kept, Minute(second))
    requires after.Keys == kept.Keys + {key} && key in after && after[key].window == Minute(second)
    requires |before| < CLEANUP_THRESHOLD ==> kept == before
    requires |before| >= CLEANUP_THRESHOLD ==> forall k :: k in kept ==> kept[k].window >= Minute(second)
    ensures |after| <= CLEANUP_THRESHOLD || after.Keys == KeysIn(hits + [LocalHit(key, second)], Minute(second))
  {
    var now, hits' := Minute(second), hits + [LocalHit(key, second)];
    if |before| < CLEANUP_THRESHOLD {
      hide Tracks, NotBefore, Pruned, KeysIn, LocalCount;
      assert |after.Keys| <= |kept.Keys| + 1;
    } else {
      hide LocalCount;
      assert hits'[|hits|] == LocalHit(key, second);
      forall k | k in kept ensures k in KeysIn(hits', now) {
        CountWitness(hits, k, kept[k].window);
        var i :| 0 <= i < |hits| && CountsLocally(hits[i], k, kept[k].window);
        assert hits'[i] == hits[i];
      }
      forall k | k in KeysIn(hits', now) ensures k in after {
        var i :| 0 <= i < |hits'| && hits'[i].LocalHit? && Minute(hits'[i].second) == now && hits'[i].key == k;
        if i < |hits| {
          assert Current(hits, Minute(hits[i].second));
        }
      }
    }
  }

  // ---------- how much is admitted ----------

  /** Local calls of a key admitted at times in [low, high). */
  function AdmittedLocally(hits: seq<Hit>, limit: nat, key: string, low: nat, high: nat): nat {
    if hits == [] then 0
    else
      var h := hits[|hits| - 1];
      AdmittedLocally(hits[..|hits| - 1], limit, key, low, high)
      + if h.LocalHit? && h.key == key && low <= h.second < high && LastAdmits(hits, limit) then 1 else 0
  }

  function Min(a: nat, b: nat): nat { if a <= b then a else b }

  /** Of the calls of a key in one minute exactly the first `limit` pass. */
  lemma {:induction false} AdmitsExactlyTheLimit(hits: seq<Hit>, limit: nat, key: string, minute: nat)
    ensures AdmittedLocally(hits, limit, key, 60 * minute, 60 * minute + 60)
            == Min(LocalCount(hits, key, minute), limit)
  {
    if hits != [] {
      AdmitsExactlyTheLimit(hits[..|hits| - 1], limit, key, minute);
    }
  }

  lemma {:induction false} AdmittedSplits(hits: seq<Hit>, limit: nat, key: string, low: nat, mid: nat, high: nat)
    requires low <= mid <= high
    ensures AdmittedLocally(hits, limit, key, low, high)
            == AdmittedLocally(hits, limit, key, low, mid) + AdmittedLocally(hits, limit, key, mid, high)
  {
    if hits != [] {
      AdmittedSplits(hits[..|hits| - 1], limit, key, low, mid, high);
    }
  }

  /** How many calendar minutes the half-open span [low, high) meets. */
  function MinutesMet(low: nat, high: nat): nat
    requires low < high
  {
    Minute(high - 1) - Minute(low) + 1
  }

  lemma WithinOneMinute(hits: seq<Hit>, limit: nat, key: string, low: nat, high: nat)
    requires low <= high <= 60 * Minute(low) + 60
    ensures AdmittedLocally(hits, limit, key, low, high) <= limit
  {
    var start := 60 * Minute(low);
    AdmittedSplits(hits, limit, key, start, low, start + 60);
    AdmittedSplits(hits, limit, key, low, high, start + 60);
    AdmitsExactlyTheLimit(hits, limit, key, Minute(low));
  }

  lemma NextMinuteMet(low: nat, high: nat)
    requires 60 * Minute(low) + 60 < high
    ensures MinutesMet(low, high) == MinutesMet(60 * Minute(low) + 60, high) + 1
  {
  }

  lemma OneMore(n: nat, limit: nat)
    ensures (n + 1) * limit == n * limit + limit
  {
  }

  lemma {:induction false} AdmittedPerMinuteMet(hits: seq<Hit>, limit: nat, key: string, low: nat, high: nat)
    requires low < high
    ensures AdmittedLocally(hits, limit, key, low, high) <= MinutesMet(low, high) * limit
    decreases high - low
  {
    var mid := 60 * Minute(low) + 60;
    if mid < high {
      WithinOneMinute(hits, limit, key, low, mid);
      AdmittedSplits(hits, limit, key, low, mid, high);
      AdmittedPerMinuteMet(hits, limit, key, mid, high);
      NextMinuteMet(low, high);
      OneMore(MinutesMet(mid, high), limit);
    } else {
      WithinOneMinute(hits, limit, key, low, high);
      assert MinutesMet(low, high) == 1;
    }
  }

  function CeilMinutes(seconds: nat): nat { (seconds + 59) / 60 }

  /** Any span of L seconds admits at most (ceil(L / 60) + 1) * limit calls of a key. */
  lemma SpanBound(hits: seq<Hit>, limit: nat, key: string, low: nat, length: nat)
    requires length > 0
    ensures AdmittedLocally(hits, limit, key, low, low + length) <= ((length + 59) / 60 + 1) * limit
  {
    AdmittedPerMinuteMet(hits, limit, key, low, low + length);
    FewMinutesMet(low, length);
    TimesIsMonotone(MinutesMet(low, low + length), CeilMinutes(length) + 1, limit);
  }

  lemma FewMinutesMet(low: nat, length: nat)
    requires length > 0
    ensures MinutesMet(low, low + length) <= CeilMinutes(length) + 1
  {
  }

  lemma TimesIsMonotone(a: nat, b: nat, limit: nat)
    requires a <= b
    ensures a * limit <= b * limit
  {
  }

  /** Requests of a key admitted in a minute, by whichever counter decided. */
  function Admitted(hits: seq<Hit>, limit: nat, key: string, minute: nat): nat {
    if hits == [] then 0
    else
      var h := hits[|hits| - 1];
      Admitted(hits[..|hits| - 1], limit, key, minute)
      + if h.key == key && Minute(h.second) == minute && LastAdmits(hits, limit) then 1 else 0
  }

  /** Requests of a key admitted in a minute by the shared counter. */
  function AdmittedShared(hits: seq<Hit>, limit: nat, key: string, minute: nat): nat {
    if hits == [] then 0
    else
      var h := hits[|hits| - 1];
      AdmittedShared(hits[..|hits| - 1], limit, key, minute)
      + if h.SharedHit? && h.key == key && Minute(h.second) == minute && LastAdmits(hits, limit) then 1 else 0
  }

  /** The shared counter admits those of its first `limit` increments that it answers; the local
      one admits exactly min(calls, limit) of what is left to it. */
  lemma {:induction false} AdmittedIsSum(hits: seq<Hit>, limit: nat, key: string, minute: nat)
    ensures Admitted(hits, limit, key, minute)
            == AdmittedShared(hits, limit, key, minute) + Min(LocalCount(hits, key, minute), limit)
    ensures AdmittedShared(hits, limit, key, minute) <= Min(SharedCount(hits, key, minute), limit)
  {
    if hits != [] {
      AdmittedIsSum(hits[..|hits| - 1], limit, key, minute);
    }
  }

  /** Whatever the shared counter does, a key never gets more than twice the limit in one minute;
      and it gets more than the limit exactly if the shared counter admitted some of its requests
      and these with the calls left to the local counter are more than the limit. */
  lemma FallbackBound(hits: seq<Hit>, limit: nat, key: string, minute: nat)
    ensures Admitted(hits, limit, key, minute) <= 2 * limit
    ensures var shared, local := AdmittedShared(hits, limit, key, minute), LocalCount(hits, key, minute);
            Admitted(hits, limit, key, minute) > limit <==> shared > 0 && shared + local > limit
  {
    AdmittedIsSum(hits, limit, key, minute);
  }

  /** `n` answered calls of the shared counter followed by `m` local ones, all in one second. */
  function Burst(key: string, second: nat, n: nat, m: nat): seq<Hit> {
    if m > 0 then Burst(key, second, n, m - 1) + [LocalHit(key, second)]
    else if n > 0 then Burst(key, second, n - 1, 0) + [SharedHit(key, second, Answered)]
    else []
  }

  lemma {:induction false} BurstAdmits(limit: nat, key: string, second: nat, n: nat, m: nat)
    ensures var hits, minute := Burst(key, second, n, m), Minute(second);
            && SharedCount(hits, key, minute) == n && LocalCount(hits, key, minute) == m
            && Admitted(hits, limit, key, minute) == Min(n, limit) + Min(m, limit)
    decreases m, n
  {
    hide SharedCount, LocalCount, Admitted, LastAdmits;
    if m > 0 {
      BurstAdmits(limit, key, second, n, m - 1);
      OneMoreHit(Burst(key, second, n, m - 1), LocalHit(key, second), limit);
    } else if n > 0 {
      BurstAdmits(limit, key, second, n - 1, 0);
      OneMoreHit(Burst(key, second, n - 1, 0), SharedHit(key, second, Answered), limit);
    } else {
      NoHits(limit, key, Minute(second));
    }
  }

  lemma NoHits(limit: nat, key: string, minute: nat)
    ensures SharedCount([], key, minute) == LocalCount([], key, minute) == Admitted([], limit, key, minute) == 0
  {
  }

  /** What one more hit, local or answered, does to the counts of its key and minute. */
  lemma OneMoreHit(hits: seq<Hit>, h: Hit, limit: nat)
    requires h.SharedHit? ==> h.fate == Answered
    ensures var hits', key, minute := hits + [h], h.key, Minute(h.second);
            && SharedCount(hits', key, minute) == SharedCount(hits, key, minute) + (if h.SharedHit? then 1 else 0)
            && LocalCount(hits', key, minute) == LocalCount(hits, key, minute) + (if h.LocalHit? then 1 else 0)
            && var count := if h.SharedHit? then SharedCount(hits', key, minute) else LocalCount(hits', key, minute);
               Admitted(hits', limit, key, minute)
               == Admitted(hits, limit, key, minute) + if count <= limit then 1 else 0
  {
    assert (hits + [h])[..|hits|] == hits;
  }

  /** The bound is reached: a shared counter that fails after `limit` calls lets `limit` more pass. */
  lemma FallbackBoundIsReached(limit: nat, key: string, second: nat)
    ensures Admitted(Burst(key, second, limit, limit), limit, key, Minute(second)) == 2 * limit
  {
    BurstAdmits(limit, key, second, limit, limit);
  }
}
