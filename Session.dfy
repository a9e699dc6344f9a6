/**
 * The per-visitor session, and the key under which a verified share password hash is
 * kept ("session elevation").
 */
module SessionStore {

  const PasswordKeyPrefix := "share-password."

  /** `"share-password.$share->id"`. */
  function PasswordKey(shareId: string): (k: string)
    ensures |k| == |PasswordKeyPrefix| + |shareId|
    ensures k[..|PasswordKeyPrefix|] == PasswordKeyPrefix && k[|PasswordKeyPrefix|..] == shareId
  {
    PasswordKeyPrefix + shareId
  }

  /** Distinct shares use distinct session keys, so an elevation stays with its share. */
  lemma PasswordKeyInjective(a: string, b: string)
    ensures PasswordKey(a) == PasswordKey(b) ==> a == b
  {
    if PasswordKey(a) == PasswordKey(b) {
      calc {
        a;
        PasswordKey(a)[|PasswordKeyPrefix|..];
        PasswordKey(b)[|PasswordKeyPrefix|..];
        b;
      }
    }
  }

  /** The session store of one visitor: string keys to string values. */
  class Session {
    var values: map<string, string>

    constructor ()
      ensures values == map[]
    {
      values := map[];
    }

    /** `session([$key => $value])`. */
    method Put(key: string, value: string)
      modifies this
      ensures values == old(values)[key := value]
    {
      values := values[key := value];
    }
  }
}
