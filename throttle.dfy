/**
  The creation throttle: a counter of recent creation attempts per account, kept
  in an expiring key-value cache, that delays accounts which create requests too
  quickly.
 */
module Throttle {
  import opened Wrappers
  import opened Text
  import opened Platform

  /** One request per account per five minutes, in seconds. */
  const CreationThrottleExpiry: int := 300

  /** The counter stops growing once it reaches this value. */
  const AttemptsCap: int := 100

  /** A cached value and the moment it expires. */
  datatype Entry = Entry(value: string, expiresAt: int)

  /** The value of `entries` under `key` that is still visible at `now`. */
  function Visible(entries: map<string, Entry>, key: string, now: int): Option<string> {
    if key in entries && now < entries[key].expiresAt then Some(entries[key].value) else None
  }

  /** The expiring key-value cache: a key is visible until its expiry moment. */
  class Cache {
    var entries: map<string, Entry>

    constructor ()
      ensures entries == map[]
    {
      entries := map[];
    }

    /** The value under `key` at `now`, `None` when there is none or it has expired. */
    function Get(key: string, now: int): (r: Option<string>)
      reads this
      ensures r.Some? <==> key in entries && now < entries[key].expiresAt
      ensures r.Some? ==> r.value == entries[key].value
    {
      Visible(entries, key, now)
    }

    /** Store `value` under `key` for `ex` seconds. The cache refuses an expiry that
        is not positive and then changes nothing. */
    method Set(key: string, value: string, ex: int, now: int) returns (ok: bool)
      modifies this
      ensures ok <==> ex > 0
      ensures ok ==> entries == old(entries)[key := Entry(value, now + ex)]
      ensures !ok ==> entries == old(entries)
    {
      if ex <= 0 {
        return false;
      }
      entries := entries[key := Entry(value, now + ex)];
      return true;
    }
  }

  /** The key of an account's counter; `siteId` is the site identifier as text. */
  function CacheKey(siteId: string, creatorId: string): string {
    siteId + ".ckanext.datarequest.creation_attempts." + creatorId
  }

  /** `int(cached or 0)`, with 0 where `int` raises on the cached text. */
  function CreationAttempts(cached: Option<string>): int {
    if cached.None? || cached.value == "" then 0 else ParseInt(cached.value).GetOr(0)
  }

  /** The time the counter is kept: five minutes for a first attempt, five minutes
      per attempt already counted otherwise. */
  function Expiry(attempts: int): int {
    if attempts != 0 then attempts * CreationThrottleExpiry else CreationThrottleExpiry
  }

  /** The counter after this attempt, which stops growing at the cap. */
  function RecordedAttempts(attempts: int): int {
    if attempts >= AttemptsCap then attempts else attempts + 1
  }

  /** `int(expiry / 60)`: the minutes of the error message, true division truncated
      toward zero. */
  function Minutes(expiry: int): int {
    if expiry >= 0 then expiry / 60 else -((-expiry) / 60)
  }

  /** The answer of the throttle: the creation may go on, it is refused with the
      minutes to wait, or the cache refused the counter (a non-positive expiry). */
  datatype ThrottleResult = Passed | Throttled(minutes: int) | StoreFailed

  /** Whether the account skips the throttle: a sysadmin, or a user who may create
      datasets in some organisation. */
  predicate Privileged(creator: User, canCreateDataset: string -> bool) {
    creator.sysadmin || canCreateDataset(creator.name)
  }

  /** The answer of the throttle to an account with `attempts` counted. */
  function Verdict(privileged: bool, attempts: int): (r: ThrottleResult)
    ensures privileged ==> r == Passed
    ensures !privileged && attempts == 0 ==> r == Passed
    ensures !privileged && attempts > 0 ==> r == Throttled(5 * attempts)
  {
    ExpiryRule(attempts);
    if privileged then Passed
    else if Expiry(attempts) <= 0 then StoreFailed
    else if attempts != 0 then Throttled(Minutes(Expiry(attempts)))
    else Passed
  }

  /** The cache once the throttle has run for an account with `attempts` counted:
      unchanged for a privileged account or an expiry the cache refuses, the raised
      counter under the account's key otherwise. */
  function CounterAfter(entries: map<string, Entry>, privileged: bool, key: string, attempts: int, now: int)
    : map<string, Entry>
  {
    if privileged || Expiry(attempts) <= 0 then entries
    else entries[key := Entry(IntToString(RecordedAttempts(attempts)), now + Expiry(attempts))]
  }

  /** `throttle_datarequest`: privileged accounts (sysadmins and users who may create
      datasets in some organisation, as `canCreateDataset` says) pass untouched; any
      other account has its counter read, raised and stored, and is refused when it
      had attempts before. */
  method ThrottleDatarequest(cache: Cache, creator: User, canCreateDataset: string -> bool, siteId: string, now: int)
    returns (r: ThrottleResult)
    modifies cache
    ensures creator.sysadmin || canCreateDataset(creator.name) ==>
      r == Passed && cache.entries == old(cache.entries)
    ensures var key := CacheKey(siteId, creator.id);
      var attempts := CreationAttempts(Visible(old(cache.entries), key, now));
      && r == Verdict(Privileged(creator, canCreateDataset), attempts)
      && cache.entries == CounterAfter(old(cache.entries), Privileged(creator, canCreateDataset), key, attempts, now)
  {
    if creator.sysadmin || canCreateDataset(creator.name) {
      return Passed;
    }
    var cacheKey := CacheKey(siteId, creator.id);
    var creationAttempts := ReadAttempts(cache, cacheKey, now);
    r := RecordAttempt(cache, cacheKey, creationAttempts, now);
  }

  /** The counter cached under `key`, 0 when there is none or it is not a number. */
  method ReadAttempts(cache: Cache, key: string, now: int) returns (attempts: int)
    ensures attempts == CreationAttempts(Visible(cache.entries, key, now))
  {
    var cached := cache.Get(key, now);
    attempts := CreationAttempts(cached);
  }

  /** The throttle's step for an account that is not privileged and has `creationAttempts`
      counted: store the raised counter with its expiry, and refuse the account when
      it had attempts before. */
  method RecordAttempt(cache: Cache, cacheKey: string, creationAttempts: int, now: int) returns (r: ThrottleResult)
    modifies cache
    ensures r == Verdict(false, creationAttempts)
    ensures cache.entries == CounterAfter(old(cache.entries), false, cacheKey, creationAttempts, now)
  {
    var expiry;
    if creationAttempts != 0 {
      expiry := creationAttempts * CreationThrottleExpiry;
    } else {
      expiry := CreationThrottleExpiry;
    }
    var recordedAttempts := if creationAttempts >= AttemptsCap then creationAttempts else creationAttempts + 1;
    var stored := cache.Set(cacheKey, IntToString(recordedAttempts), expiry, now);
    if !stored {
      return StoreFailed;
    }
    if creationAttempts != 0 {
      return Throttled(Minutes(expiry));
    }
    return Passed;
  }

  /** For an account that is not privileged, the throttle stores the raised counter
      under its key for the expiry, or changes nothing when the cache refuses that
      expiry, and refuses the account exactly when it had attempts before. */
  lemma UnprivilegedOutcome(entries: map<string, Entry>, key: string, attempts: int, now: int)
    ensures var r := Verdict(false, attempts);
      var after := CounterAfter(entries, false, key, attempts, now);
      if Expiry(attempts) <= 0 then
        r == StoreFailed && after == entries
      else
        && after == entries[key := Entry(IntToString(RecordedAttempts(attempts)), now + Expiry(attempts))]
        && after[key].expiresAt > now
        && (attempts != 0 <==> r.Throttled?)
        && (attempts != 0 ==> r.minutes * 60 == Expiry(attempts))
  {
    ExpiryRule(attempts);
  }

  /** The expiry is five minutes for a first attempt and five minutes per earlier
      attempt otherwise, a whole number of minutes that the message reports exactly. */
  lemma ExpiryRule(attempts: int)
    ensures attempts == 0 ==> Expiry(attempts) == 300 && Minutes(Expiry(attempts)) == 5
    ensures attempts != 0 ==> Expiry(attempts) == attempts * 300 && Minutes(Expiry(attempts)) == 5 * attempts
    ensures Minutes(Expiry(attempts)) * 60 == Expiry(attempts)
    ensures attempts >= 0 ==> Expiry(attempts) > 0
  {
    if attempts < 0 {
      assert -Expiry(attempts) == (-attempts) * 300;
      assert (-Expiry(attempts)) / 60 == (-attempts) * 5;
    }
  }

  /** The counter grows by one per attempt until it reaches the cap, and then stays:
      starting at or below the cap, it never passes it. */
  lemma CounterIsCapped(attempts: int)
    ensures attempts < AttemptsCap ==> RecordedAttempts(attempts) == attempts + 1
    ensures attempts >= AttemptsCap ==> RecordedAttempts(attempts) == attempts
    ensures attempts <= AttemptsCap ==> RecordedAttempts(attempts) <= AttemptsCap
    ensures RecordedAttempts(attempts) >= attempts
  {
  }

  /** What the throttle stores it reads back as the same counter. */
  lemma CounterReadsBack(n: int)
    ensures CreationAttempts(Some(IntToString(n))) == n
  {
    IntRoundTrip(n);
  }

  /** No cached counter, an empty one or text that is not a number reads as no attempt. */
  lemma MissingCounterIsZero(cached: Option<string>)
    requires cached.None? || cached == Some("") || ParseInt(cached.value).None?
    ensures CreationAttempts(cached) == 0
  {
  }

  /** Two attempts in a row: an account with `n` earlier attempts (none at all, or up to
      the cap) that tries again before the counter expires is refused, and told to wait
      five minutes per attempt now counted. */
  lemma NextAttemptIsThrottled(n: int, now: int, later: int)
    requires 0 <= n <= AttemptsCap
    requires now <= later < now + Expiry(n)
    ensures var cached := Entry(IntToString(RecordedAttempts(n)), now + Expiry(n));
      var next := CreationAttempts(Some(cached.value));
      && later < cached.expiresAt
      && next == RecordedAttempts(n) && 1 <= next <= AttemptsCap
      && Minutes(Expiry(next)) == 5 * next
  {
    CounterReadsBack(RecordedAttempts(n));
    ExpiryRule(RecordedAttempts(n));
  }
}
