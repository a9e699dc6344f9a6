/**
 * The attempt counter behind the share-login throttle. The framework's decay window and
 * clock are not part of the model: a counter is either in its window or gone.
 */
module RateLimiting {
  import opened Wrappers

  /** `RateLimiter::tooManyAttempts($throttleKey, 5)`. */
  const MaxLoginAttempts: nat := 5

  /** `$share->id . '|' . request()->ip()`. */
  function ThrottleKey(shareId: string, ip: string): (k: string)
    ensures |k| == |shareId| + 1 + |ip|
    ensures k[..|shareId|] == shareId && k[|shareId|] == '|' && k[|shareId| + 1..] == ip
  {
    shareId + "|" + ip
  }

  /**
   * When share ids contain no '|' (ULIDs never do), the key determines both the share
   * and the client address, so each (share, client) pair has its own counter.
   */
  lemma {:induction false} ThrottleKeyInjective(id1: string, ip1: string, id2: string, ip2: string)
    requires forall i :: 0 <= i < |id1| ==> id1[i] != '|'
    requires forall i :: 0 <= i < |id2| ==> id2[i] != '|'
    requires ThrottleKey(id1, ip1) == ThrottleKey(id2, ip2)
    ensures id1 == id2 && ip1 == ip2
  {
    var k := ThrottleKey(id1, ip1);
    if |id1| != |id2| {
      assert false;
    }
    assert id1 == k[..|id1|] == id2;
    assert ip1 == k[|id1| + 1..] == ip2;
  }

  /** The framework's rate limiter: a hit counter per key. */
  class RateLimiter {
    var attempts: map<string, nat>

    constructor ()
      ensures attempts == map[]
    {
      attempts := map[];
    }

    /** The hits recorded for `key` in its current window; zero when there are none. */
    function Attempts(key: string): (n: nat)
      reads this
      ensures key !in attempts ==> n == 0
      ensures key in attempts ==> n == attempts[key]
    {
      if key in attempts then attempts[key] else 0
    }

    /** `RateLimiter::tooManyAttempts($key, $maxAttempts)`. */
    predicate TooManyAttempts(key: string, maxAttempts: nat): (r: bool)
      reads this
      ensures maxAttempts == 0 ==> r
      ensures r && maxAttempts > 0 ==> key in attempts && attempts[key] >= maxAttempts
    {
      Attempts(key) >= maxAttempts
    }

    /** `RateLimiter::hit($key)`: one more attempt on `key`, no other key changes. */
    method Hit(key: string)
      modifies this
      ensures attempts == old(attempts)[key := old(Attempts(key)) + 1]
      ensures Attempts(key) == old(Attempts(key)) + 1
    {
      attempts := attempts[key := Attempts(key) + 1];
    }
  }
}
