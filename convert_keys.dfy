/**
 * convert_keys.py: the one-shot migration from a plain collection of access
 * keys to the first record format, giving every key a fresh secret.
 */
module ConvertKeys {
  import opened Wrappers
  import opened KeyRecord

  /** The position of the last occurrence of `k` in `s`, or -1. */
  function LastIndex(s: seq<string>, k: string): (i: int)
    ensures -1 <= i < |s|
    ensures i == -1 <==> k !in s
    ensures 0 <= i ==> s[i] == k && forall j :: i < j < |s| ==> s[j] != k
    decreases |s|
  {
    if s == [] then -1
    else if s[|s| - 1] == k then |s| - 1
    else LastIndex(s[..|s| - 1], k)
  }

  /**
   * convert_keys on the old keys, in their order; `secrets[i]` is the secret
   * pyotp.random_base32 produces at iteration i. A key listed twice ends up
   * with the secret of its last occurrence. `converted` is the number
   * reported, which counts repeated keys each time.
   */
  method ConvertKeys(oldKeys: seq<string>, secrets: seq<string>)
    returns (newKeys: map<string, Record>, converted: nat)
    requires |secrets| == |oldKeys|
    ensures converted == |oldKeys|
    ensures newKeys.Keys == set k | k in oldKeys
    ensures |newKeys| == |set k | k in oldKeys|
    ensures forall k :: k in newKeys ==>
              && Fields(newKeys[k]) == {"secret", "used"}
              && newKeys[k].used == Some(false)
              && newKeys[k].secret == Some(secrets[LastIndex(oldKeys, k)])
  {
    newKeys := map[];
    var i := 0;
    while i < |oldKeys|
      invariant 0 <= i <= |oldKeys|
      invariant newKeys.Keys == set k | k in oldKeys[..i]
      invariant forall k :: k in newKeys ==> newKeys[k] == LegacyRecord(secrets[LastIndex(oldKeys[..i], k)])
    {
      var key := oldKeys[i];
      newKeys := newKeys[key := Record(Some(secrets[i]), None, None, None, None, Some(false))];
      assert oldKeys[..i + 1][..i] == oldKeys[..i];
      i := i + 1;
    }
    assert oldKeys[..i] == oldKeys;
    assert newKeys.Keys == set k | k in oldKeys;
    converted := |oldKeys|;
  }
}
