/**
 * The key file and the operations of totp_generator.py: issuing a one-time
 * code against a key's usage quota, the two read-only queries, and adding a
 * key in the first record format.
 *
 * The file is a `KeyStore` object whose `keys` field is the decoded contents of
 * `keys.json`; every operation reads it (load_keys), works on a local copy and
 * writes the copy back through `Save` (save_keys), which may fail.
 */
module TotpGenerator {
  import opened Wrappers
  import opened KeyRecord

  class KeyStore {
    var keys: map<string, Record>

    constructor (initial: map<string, Record>)
      ensures keys == initial
    {
      keys := initial;
    }

    /**
     * save_keys: replace the whole file. `saveOk` is whether the write
     * succeeds; on failure the file keeps its previous contents and false is
     * returned.
     */
    method Save(updated: map<string, Record>, saveOk: bool) returns (ok: bool)
      modifies this
      ensures ok == saveOk
      ensures keys == if saveOk then updated else old(keys)
    {
      if saveOk {
        keys := updated;
      }
      ok := saveOk;
    }
  }

  /** The error half of generate_totp_code's `(code, error)` pair. */
  datatype IssueError =
    | InvalidKey                                         // "Invalid key provided"
    | UsageLimitReached(usageCount: int, maxUses: int)   // "Key has reached its usage limit (c/m uses)"
    | NoSecret                                           // "No secret found for this key"
    | TotpFailed                                         // "Error generating TOTP code: ..." (pyotp raised)
    | SaveFailed                                         // "Failed to update key usage count"

  datatype IssueResult = Code(code: string) | Failed(error: IssueError)

  /** The checks generate_totp_code makes before it computes a code, in their order. */
  function Admission(keys: map<string, Record>, userKey: string): (e: Option<IssueError>)
    ensures e == Some(InvalidKey) <==> userKey !in keys
    ensures (e.Some? && e.value.UsageLimitReached?) <==>
              userKey in keys && !HasRemainingUses(keys[userKey])
    ensures e == Some(NoSecret) <==>
              userKey in keys && HasRemainingUses(keys[userKey]) && !HasSecret(keys[userKey])
    ensures e.None? <==>
              userKey in keys && HasRemainingUses(keys[userKey]) && HasSecret(keys[userKey])
    ensures e.Some? && e.value.UsageLimitReached? ==>
              e.value == UsageLimitReached(UsageCount(keys[userKey]), MaxUses(keys[userKey]))
  {
    if userKey !in keys then
      Some(InvalidKey)
    else
      var keyData := keys[userKey];
      var maxUses := MaxUses(keyData);
      var usageCount := UsageCount(keyData);
      if maxUses != UNLIMITED && usageCount >= maxUses then
        Some(UsageLimitReached(usageCount, maxUses))
      else if !HasSecret(keyData) then
        Some(NoSecret)
      else
        None
  }

  /** A successful issuance's change to the key's record: one more use, stamped `now`. */
  function RecordUse(r: Record, now: string): (r': Record)
    ensures UsageCount(r') == UsageCount(r) + 1
    ensures MaxUses(r') == MaxUses(r) && r'.maxUses == r.maxUses
    ensures r'.secret == r.secret && r'.createdAt == r.createdAt && r'.used == r.used
    ensures r'.lastUsed == Some(now)
    ensures Fields(r') == Fields(r) + {"usage_count", "last_used"}
  {
    r.(usageCount := Some(UsageCount(r) + 1), lastUsed := Some(now))
  }

  /** The reply of one call and the key file after it. */
  datatype Issuance = Issuance(result: IssueResult, keys: map<string, Record>)

  /**
   * What generate_totp_code does to the key file `keys` when the TOTP value
   * of a secret at this instant is `totp(secret)` (None when pyotp raises),
   * the current time is `now` and the write succeeds iff `saveOk`.
   */
  function Issue(keys: map<string, Record>, userKey: string, totp: string -> Option<string>,
                 now: string, saveOk: bool): (out: Issuance)
    ensures Admission(keys, userKey).Some? ==> out.result == Failed(Admission(keys, userKey).value)
    ensures out.result.Failed? ==> out.keys == keys
    ensures out.result.Code? <==>
              && userKey in keys
              && HasRemainingUses(keys[userKey])
              && HasSecret(keys[userKey])
              && totp(keys[userKey].secret.value).Some?
              && saveOk
    ensures out.result.Code? ==>
              && out.result.code == totp(keys[userKey].secret.value).value
              && out.keys == keys[userKey := RecordUse(keys[userKey], now)]
    ensures out.result == Failed(TotpFailed) <==>
              Admission(keys, userKey).None? && totp(keys[userKey].secret.value).None?
    ensures out.result == Failed(SaveFailed) <==>
              Admission(keys, userKey).None? && totp(keys[userKey].secret.value).Some? && !saveOk
    ensures out.keys.Keys == keys.Keys
    ensures forall k :: k in keys && k != userKey ==> out.keys[k] == keys[k]
  {
    match Admission(keys, userKey)
    case Some(e) => Issuance(Failed(e), keys)
    case None =>
      var keyData := keys[userKey];
      match totp(keyData.secret.value)
      case None => Issuance(Failed(TotpFailed), keys)
      case Some(code) =>
        if saveOk then Issuance(Code(code), keys[userKey := RecordUse(keyData, now)])
        else Issuance(Failed(SaveFailed), keys)
  }

  /** generate_totp_code: the checks in order, then count the use and persist it. */
  method GenerateTotpCode(store: KeyStore, userKey: string, totp: string -> Option<string>,
                          now: string, saveOk: bool) returns (r: IssueResult)
    modifies store
    ensures Issuance(r, store.keys) == Issue(old(store.keys), userKey, totp, now, saveOk)
  {
    var keys := store.keys;
    if userKey !in keys {
      return Failed(InvalidKey);
    }
    var keyData := keys[userKey];
    var maxUses := MaxUses(keyData);
    var usageCount := UsageCount(keyData);
    if maxUses != UNLIMITED && usageCount >= maxUses {
      return Failed(UsageLimitReached(usageCount, maxUses));
    }
    if !HasSecret(keyData) {
      return Failed(NoSecret);
    }
    var code := totp(keyData.secret.value);
    if code.None? {
      return Failed(TotpFailed);
    }
    keys := keys[userKey := keys[userKey].(usageCount := Some(usageCount + 1))];
    keys := keys[userKey := keys[userKey].(lastUsed := Some(now))];
    var saved := store.Save(keys, saveOk);
    if !saved {
      return Failed(SaveFailed);
    }
    return Code(code.value);
  }

  /** validate_key: the key exists and has uses left. */
  function ValidateKey(keys: map<string, Record>, userKey: string): (valid: bool)
    ensures valid <==> userKey in keys && HasRemainingUses(keys[userKey])
  {
    if userKey !in keys then false
    else
      var keyData := keys[userKey];
      var maxUses := MaxUses(keyData);
      var usageCount := UsageCount(keyData);
      if maxUses == UNLIMITED then true
      else if usageCount < maxUses then true
      else false
  }

  /** `remaining_uses` of get_key_info: the string "unlimited" or a number. */
  datatype Remaining = UnlimitedUses | Uses(count: int)

  /** The dictionary get_key_info returns; `Missing` is `{"exists": False}`. */
  datatype KeyInfo =
    | Missing
    | Found(maxUses: int, usageCount: int, remaining: Remaining, isValid: bool,
            lastUsed: Option<string>, createdAt: Option<string>)

  /** get_key_info */
  function GetKeyInfo(keys: map<string, Record>, userKey: string): (info: KeyInfo)
    ensures info.Missing? <==> userKey !in keys
    ensures info.Found? ==>
              && info.maxUses == MaxUses(keys[userKey])
              && info.usageCount == UsageCount(keys[userKey])
              && info.lastUsed == keys[userKey].lastUsed
              && info.createdAt == keys[userKey].createdAt
              && info.isValid == ValidateKey(keys, userKey)
    ensures info.Found? ==> (info.remaining.UnlimitedUses? <==> info.maxUses == UNLIMITED)
    ensures info.Found? && info.remaining.Uses? ==>
              info.remaining.count == info.maxUses - info.usageCount
    ensures info.Found? ==>
              (info.isValid <==> info.remaining.UnlimitedUses? || info.remaining.count > 0)
  {
    if userKey !in keys then Missing
    else
      var keyData := keys[userKey];
      var maxUses := MaxUses(keyData);
      var usageCount := UsageCount(keyData);
      Found(maxUses, usageCount,
            if maxUses == UNLIMITED then UnlimitedUses else Uses(maxUses - usageCount),
            ValidateKey(keys, userKey), keyData.lastUsed, keyData.createdAt)
  }

  /**
   * add_new_key: refuse a key that exists; otherwise store `{secret, used: false}`,
   * with `generated` (pyotp.random_base32) when no secret is supplied.
   */
  method AddNewKey(store: KeyStore, accessKey: string, generated: string, saveOk: bool,
                   secret: Option<string> := None) returns (ok: bool)
    modifies store
    ensures accessKey in old(store.keys) ==> !ok && store.keys == old(store.keys)
    ensures accessKey !in old(store.keys) ==> ok == saveOk
    ensures store.keys == if ok then old(store.keys)[accessKey := LegacyRecord(ChosenSecret(secret, generated))]
                          else old(store.keys)
  {
    var keys := store.keys;
    if accessKey in keys {
      return false;
    }
    var chosen := if secret.Some? && secret.value != "" then secret.value else generated;
    keys := keys[accessKey := Record(Some(chosen), None, None, None, None, Some(false))];
    ok := store.Save(keys, saveOk);
  }

  const LIMIT_PREFIX: string := "Key has reached its usage limit ("

  /**
   * The error text of each refusal, as the caller receives it. Each kind of
   * refusal has its own first letter, and the usage-limit text spells out the
   * count and the limit in decimal.
   */
  function Message(e: IssueError): (msg: string)
    ensures |msg| > 0 && msg[0] == Initial(e)
    ensures e.UsageLimitReached? ==>
              msg == LIMIT_PREFIX + IntToString(e.usageCount) + "/" + IntToString(e.maxUses) + " uses)"
  {
    match e
    case InvalidKey => "Invalid key provided"
    case UsageLimitReached(c, m) => LIMIT_PREFIX + (IntToString(c) + "/" + (IntToString(m) + " uses)"))
    case NoSecret => "No secret found for this key"
    case TotpFailed => "Error generating TOTP code: "
    case SaveFailed => "Failed to update key usage count"
  }

  function DigitChar(d: nat): (c: char)
    requires d < 10
    ensures '0' <= c <= '9' && c as int - '0' as int == d
  {
    "0123456789"[d]
  }

  /** The value of a string of decimal digits, most significant first. */
  function DigitsValue(s: string): nat
    requires forall i :: 0 <= i < |s| ==> '0' <= s[i] <= '9'
  {
    if s == [] then 0
    else DigitsValue(s[..|s| - 1]) * 10 + (s[|s| - 1] as int - '0' as int)
  }

  /** Python's str() of a natural number: decimal digits that read back as `n`. */
  function NatToString(n: nat): (s: string)
    ensures |s| > 0
    ensures forall i :: 0 <= i < |s| ==> '0' <= s[i] <= '9'
    ensures DigitsValue(s) == n
    ensures s[0] == '0' ==> n == 0
    decreases n
  {
    if n < 10 then [DigitChar(n)]
    else
      var s := NatToString(n / 10) + [DigitChar(n % 10)];
      assert s[..|s| - 1] == NatToString(n / 10);
      s
  }

  /** The integer a decimal numeral with an optional leading minus denotes. */
  function ParseInt(s: string): int
    requires forall i :: 0 <= i < |s| ==> s[i] == '-' || '0' <= s[i] <= '9'
  {
    if |s| > 0 && s[0] == '-' && forall i :: 1 <= i < |s| ==> '0' <= s[i] <= '9'
    then 0 - DigitsValue(s[1..])
    else if forall i :: 0 <= i < |s| ==> '0' <= s[i] <= '9' then DigitsValue(s)
    else 0
  }

  /**
   * Python's str() of an integer: a minus sign exactly for a negative value,
   * then decimal digits without leading zeros, reading back as `i`.
   */
  function IntToString(i: int): (s: string)
    ensures |s| > 0
    ensures forall j :: 0 <= j < |s| ==> s[j] == '-' || '0' <= s[j] <= '9'
    ensures s[0] == '-' <==> i < 0
    ensures forall j :: 0 < j < |s| ==> s[j] != '-'
    ensures var d := if i < 0 then s[1..] else s; |d| > 0 && (d[0] == '0' ==> |d| == 1)
    ensures ParseInt(s) == i
  {
    if i < 0 then
      var s := "-" + NatToString(-i);
      assert s[1..] == NatToString(-i);
      s
    else NatToString(i)
  }

  /** Cutting at the first '/' recovers both parts when the left one has no '/'. */
  lemma SplitAtSlash(a: string, x: string, a': string, x': string)
    requires '/' !in a && '/' !in a'
    requires a + "/" + x == a' + "/" + x'
    ensures a == a' && x == x'
  {
    var l, r := a + "/" + x, a' + "/" + x';
    assert l[|a|] == '/' && r[|a'|] == '/';
    assert forall i :: 0 <= i < |a| ==> l[i] == a[i] != '/';
    assert forall i :: 0 <= i < |a'| ==> r[i] == a'[i] != '/';
    assert |a| == |a'|;
    assert a == l[..|a|] == r[..|a|] == a';
    assert x == l[|a| + 1..] == r[|a| + 1..] == x';
  }

  /** The usage-limit text carries the count and the limit it was raised with. */
  lemma LimitMessageDeterminesCounts(c: int, m: int, c': int, m': int)
    requires Message(UsageLimitReached(c, m)) == Message(UsageLimitReached(c', m'))
    ensures c == c' && m == m'
  {
    var a, a' := IntToString(c), IntToString(c');
    var b, b' := IntToString(m), IntToString(m');
    var x, x' := b + " uses)", b' + " uses)";
    var y, y' := a + "/" + x, a' + "/" + x';
    assert y == (LIMIT_PREFIX + y)[|LIMIT_PREFIX|..];
    assert y' == (LIMIT_PREFIX + y')[|LIMIT_PREFIX|..];
    assert '/' !in a && '/' !in a' by {
      forall j | 0 <= j < |a| ensures a[j] != '/' { }
      forall j | 0 <= j < |a'| ensures a'[j] != '/' { }
    }
    SplitAtSlash(a, x, a', x');
    assert b == x[..|b|] && b' == x'[..|b'|];
  }

  /** The first letter of each refusal's text; no two refusals share one. */
  function Initial(e: IssueError): char {
    match e
    case InvalidKey => 'I'
    case UsageLimitReached(_, _) => 'K'
    case NoSecret => 'N'
    case TotpFailed => 'E'
    case SaveFailed => 'F'
  }

  /** Every refusal has its own text: the message determines the error. */
  lemma MessageDeterminesError(e: IssueError, e': IssueError)
    requires Message(e) == Message(e')
    ensures e == e'
  {
    if e.UsageLimitReached? {
      LimitMessageDeterminesCounts(e.usageCount, e.maxUses, e'.usageCount, e'.maxUses);
    }
  }

  // ---------------------------------------------------------------------------
  // Properties of issuance
  // ---------------------------------------------------------------------------

  /** validate_key says yes exactly when issuance gets past its existence and quota checks. */
  lemma ValidateAgreesWithIssuance(keys: map<string, Record>, userKey: string,
                                   totp: string -> Option<string>, now: string, saveOk: bool)
    ensures ValidateKey(keys, userKey) <==>
              Admission(keys, userKey).None? || Admission(keys, userKey) == Some(NoSecret)
    ensures !ValidateKey(keys, userKey) ==> Issue(keys, userKey, totp, now, saveOk).result.Failed?
  {
  }

  /** A key with the unlimited sentinel is never refused for its quota, whatever its count. */
  lemma UnlimitedNeverRefused(keys: map<string, Record>, userKey: string,
                              totp: string -> Option<string>, now: string, saveOk: bool)
    requires userKey in keys && IsUnlimited(keys[userKey])
    ensures ValidateKey(keys, userKey)
    ensures !Issue(keys, userKey, totp, now, saveOk).result.Failed?
            || !Issue(keys, userKey, totp, now, saveOk).result.error.UsageLimitReached?
  {
  }

  /** A single issuance keeps the store invariant: a use is only counted when one was left. */
  lemma IssueKeepsWithinQuota(keys: map<string, Record>, userKey: string,
                              totp: string -> Option<string>, now: string, saveOk: bool)
    requires forall k :: k in keys ==> WithinQuota(keys[k])
    ensures forall k :: k in Issue(keys, userKey, totp, now, saveOk).keys ==>
              WithinQuota(Issue(keys, userKey, totp, now, saveOk).keys[k])
  {
  }

  /** One call of generate_totp_code, with what the environment does during it. */
  datatype Attempt = Attempt(userKey: string, totp: string -> Option<string>, now: string, saveOk: bool)

  /** The key file after a sequence of calls. */
  function Run(keys: map<string, Record>, attempts: seq<Attempt>): map<string, Record>
    decreases |attempts|
  {
    if attempts == [] then keys
    else
      var a := attempts[0];
      Run(Issue(keys, a.userKey, a.totp, a.now, a.saveOk).keys, attempts[1..])
  }

  /** How many calls of the sequence handed out a code for key `k`. */
  function Successes(keys: map<string, Record>, attempts: seq<Attempt>, k: string): nat
    decreases |attempts|
  {
    if attempts == [] then 0
    else
      var a := attempts[0];
      var out := Issue(keys, a.userKey, a.totp, a.now, a.saveOk);
      (if a.userKey == k && out.result.Code? then 1 else 0) + Successes(out.keys, attempts[1..], k)
  }

  /**
   * Over any sequence of calls, for any key and any interleaving with other
   * keys: the count goes up by exactly the number of codes handed out, the
   * limit never changes, and a finite limit `m` with count `c` hands out at
   * most `m - c` codes (none once exhausted).
   */
  lemma {:induction false} QuotaBoundsSuccesses(keys: map<string, Record>, attempts: seq<Attempt>, k: string)
    requires k in keys
    ensures k in Run(keys, attempts)
    ensures MaxUses(Run(keys, attempts)[k]) == MaxUses(keys[k])
    ensures UsageCount(Run(keys, attempts)[k]) == UsageCount(keys[k]) + Successes(keys, attempts, k)
    ensures !IsUnlimited(keys[k]) ==>
              Successes(keys, attempts, k) <=
                if UsageCount(keys[k]) < MaxUses(keys[k]) then MaxUses(keys[k]) - UsageCount(keys[k]) else 0
    decreases |attempts|
  {
    if attempts != [] {
      var a := attempts[0];
      var out := Issue(keys, a.userKey, a.totp, a.now, a.saveOk);
      QuotaBoundsSuccesses(out.keys, attempts[1..], k);
    }
  }

  /** Every record stays within its quota over any sequence of calls. */
  lemma {:induction false} RunKeepsWithinQuota(keys: map<string, Record>, attempts: seq<Attempt>)
    requires forall k :: k in keys ==> WithinQuota(keys[k])
    ensures forall k :: k in Run(keys, attempts) ==> WithinQuota(Run(keys, attempts)[k])
    decreases |attempts|
  {
    if attempts != [] {
      var a := attempts[0];
      IssueKeepsWithinQuota(keys, a.userKey, a.totp, a.now, a.saveOk);
      RunKeepsWithinQuota(Issue(keys, a.userKey, a.totp, a.now, a.saveOk).keys, attempts[1..]);
    }
  }

  /** A key added by add_new_key can be used once: it passes every check when its secret is non-empty. */
  lemma NewLegacyKeyUsableOnce(keys: map<string, Record>, accessKey: string, secret: string)
    requires secret != ""
    ensures Admission(keys[accessKey := LegacyRecord(secret)], accessKey).None?
    ensures GetKeyInfo(keys[accessKey := LegacyRecord(secret)], accessKey).remaining == Uses(1)
  {
  }
}
