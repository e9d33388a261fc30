/** The Redis entries behind a distributed lock, and the lock manager that works on them.
    Durations and instants are nanoseconds, as in Go's time.Duration. */
module LeaseStore {

  const MILLISECOND: int := 1_000_000
  const SECOND: int := 1_000_000_000
  const DEFAULT_LOCK_TTL: int := 30 * SECOND

  /** The first instant at which an entry no longer exists. */
  datatype Expiry = Never | At(t: int)

  datatype Entry = Entry(token: string, expiry: Expiry)

  type Keyspace = map<string, Entry>

  /** What the network did with a command: the manager sees an error in the last two cases. */
  datatype Delivery = Answered | NeverArrived | AnswerLost

  datatype LockError = AcquireFailed | NotHeld | RedisError

  datatype Outcome<T> = Ok(value: T) | Err(error: LockError)

  predicate Before(now: int, e: Expiry) {
    e.Never? || now < e.t
  }

  predicate Live(ks: Keyspace, now: int, key: string) {
    key in ks && Before(now, ks[key].expiry)
  }

  /** GET key == token, which is what both scripts test. */
  predicate Holds(ks: Keyspace, now: int, key: string, token: string) {
    Live(ks, now, key) && ks[key].token == token
  }

  /** The client sends whole milliseconds; zero means SETNX without expiry. */
  function SetExpiry(now: int, ttl: int): Expiry {
    if ttl == 0 then Never else At(now + ttl / MILLISECOND * MILLISECOND)
  }

  predicate ValidTTL(ttl: int) {
    ttl == 0 || ttl >= MILLISECOND
  }

  /** SET key token NX with a time to live. */
  function SetNX(ks: Keyspace, now: int, key: string, token: string, ttl: int): Keyspace {
    if ValidTTL(ttl) && !Live(ks, now, key) then ks[key := Entry(token, SetExpiry(now, ttl))] else ks
  }

  /** The release script: delete the key if it still carries the token. */
  function CompareAndDelete(ks: Keyspace, now: int, key: string, token: string): Keyspace {
    if Holds(ks, now, key, token) then ks - {key} else ks
  }

  /** EXPIRE counts whole seconds: int(ttl.Seconds()). */
  function LeaseSeconds(ttl: int): int {
    if ttl >= 0 then ttl / SECOND else -(-ttl / SECOND)
  }

  /** The renewal script. EXPIRE with a non-positive number of seconds deletes the key. */
  function CompareAndExpire(ks: Keyspace, now: int, key: string, token: string, ttl: int): Keyspace {
    if !Holds(ks, now, key, token) then ks
    else if LeaseSeconds(ttl) <= 0 then ks - {key}
    else ks[key := Entry(token, At(now + LeaseSeconds(ttl) * SECOND))]
  }

  // ----- what the commands mean for a client -----

  /** A lock on a free key is held exactly for the whole milliseconds of its TTL, and for ever with a TTL of
      zero; a TTL below one millisecond sets nothing. */
  lemma HeldForTTL(ks: Keyspace, now: int, key: string, token: string, ttl: int, t: int)
    requires !Live(ks, now, key) && t >= now
    ensures ttl == 0 ==> Holds(SetNX(ks, now, key, token, ttl), t, key, token)
    ensures ttl >= 1_000_000 ==>
              (Holds(SetNX(ks, now, key, token, ttl), t, key, token) <==> t - now < ttl - ttl % 1_000_000)
    ensures ttl != 0 && ttl < 1_000_000 ==> SetNX(ks, now, key, token, ttl) == ks
  {
  }

  /** Each resource has a key of its own. */
  lemma LockKeysDiffer(m: DistributedLockManager, a: string, b: string)
    ensures m.LockKey(a) == m.LockKey(b) <==> a == b
  {
    var p := |m.lockPrefix| + 1;
    assert m.LockKey(a)[p..] == a && m.LockKey(b)[p..] == b;
  }

  class Redis {
    var keys: Keyspace
    var now: int

    constructor (now: int)
      ensures keys == map[] && this.now == now
    {
      this.keys, this.now := map[], now;
    }
  }

  class DistributedLockManager {
    const redis: Redis
    const lockPrefix: string
    var renewalTTL: int

    constructor (redis: Redis, lockPrefix: string)
      ensures this.redis == redis && this.lockPrefix == lockPrefix && renewalTTL == 30_000_000_000
    {
      this.redis, this.lockPrefix, this.renewalTTL := redis, lockPrefix, DEFAULT_LOCK_TTL;
    }

    function LockKey(resourceID: string): string {
      lockPrefix + ":" + resourceID
    }

    method SetRenewalTTL(ttl: int)
      modifies `renewalTTL
      ensures renewalTTL == if ttl > 0 then ttl else old(renewalTTL)
    {
      if ttl > 0 {
        renewalTTL := ttl;
      }
    }

    /** lockValue is the UUID drawn for this attempt. */
    method AcquireLock(resourceID: string, lockValue: string, ttl: int, net: Delivery) returns (r: Outcome<string>)
      modifies redis`keys
      ensures redis.keys == if net.NeverArrived? then old(redis.keys)
                            else SetNX(old(redis.keys), redis.now, LockKey(resourceID), lockValue, ttl)
      ensures r.Ok? ==> r.value == lockValue && Holds(redis.keys, redis.now, LockKey(resourceID), lockValue)
      ensures r == Err(AcquireFailed) ==>
                Live(old(redis.keys), redis.now, LockKey(resourceID)) && redis.keys == old(redis.keys)
      ensures net.Answered? && ValidTTL(ttl) ==> (r.Ok? <==> !Live(old(redis.keys), redis.now, LockKey(resourceID)))
    {
      var lockKey := LockKey(resourceID);
      if net.NeverArrived? {
        return Err(RedisError);
      }
      var success := ValidTTL(ttl) && !Live(redis.keys, redis.now, lockKey);
      if success {
        redis.keys := redis.keys[lockKey := Entry(lockValue, SetExpiry(redis.now, ttl))];
      }
      if net.AnswerLost? || !ValidTTL(ttl) {
        return Err(RedisError);
      }
      if !success {
        return Err(AcquireFailed);
      }
      r := Ok(lockValue);
    }

    method ReleaseLock(resourceID: string, lockValue: string, net: Delivery) returns (r: Outcome<()>)
      modifies redis`keys
      ensures redis.keys == if net.NeverArrived? then old(redis.keys)
                            else CompareAndDelete(old(redis.keys), redis.now, LockKey(resourceID), lockValue)
      ensures net.Answered? ==>
        r == if Holds(old(redis.keys), redis.now, LockKey(resourceID), lockValue) then Ok(()) else Err(NotHeld)
      ensures !net.Answered? ==> r == Err(RedisError)
    {
      var lockKey := LockKey(resourceID);
      if net.NeverArrived? {
        return Err(RedisError);
      }
      var result := 0;
      if Holds(redis.keys, redis.now, lockKey, lockValue) {
        redis.keys := redis.keys - {lockKey};
        result := 1;
      }
      if net.AnswerLost? {
        return Err(RedisError);
      }
      if result == 0 {
        return Err(NotHeld);
      }
      r := Ok(());
    }

    /** The check made before the renewal goroutine is started; Ok means the loop runs. */
    method StartRenewal(resourceID: string, lockValue: string, net: Delivery) returns (r: Outcome<()>)
      ensures r.Ok? <==> net.Answered? && Holds(redis.keys, redis.now, LockKey(resourceID), lockValue)
      ensures net.Answered? && r.Err? ==> r.error == NotHeld
    {
      var lockKey := LockKey(resourceID);
      if !net.Answered? {
        return Err(RedisError);
      }
      if !Live(redis.keys, redis.now, lockKey) || redis.keys[lockKey].token != lockValue {
        return Err(NotHeld);
      }
      r := Ok(());
    }

    /** One firing of the ticker. The goroutine stops exactly when the script answers 0. */
    method RenewalTick(resourceID: string, lockValue: string, net: Delivery) returns (running: bool)
      modifies redis`keys
      ensures redis.keys == if net.NeverArrived? then old(redis.keys)
                            else CompareAndExpire(old(redis.keys), redis.now, LockKey(resourceID), lockValue,
                                                  renewalTTL)
      ensures running <==> !net.Answered? || Holds(old(redis.keys), redis.now, LockKey(resourceID), lockValue)
    {
      var lockKey := LockKey(resourceID);
      if net.NeverArrived? {
        return true;
      }
      var result := 0;
      if Holds(redis.keys, redis.now, lockKey, lockValue) {
        var seconds := LeaseSeconds(renewalTTL);
        if seconds <= 0 {
          redis.keys := redis.keys - {lockKey};
        } else {
          redis.keys := redis.keys[lockKey := Entry(lockValue, At(redis.now + seconds * SECOND))];
        }
        result := 1;
      }
      running := net.AnswerLost? || result != 0;
    }
  }
}
