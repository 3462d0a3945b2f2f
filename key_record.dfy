/**
 * One entry of the key file `keys.json`: the JSON object stored under an access
 * key. Every field may be missing from the object, so every field is an Option;
 * the readers apply the same defaults everywhere (`max_uses` 1, `usage_count` 0).
 */
module KeyRecord {
  import opened Wrappers

  datatype Record = Record(
    secret: Option<string>,
    maxUses: Option<int>,
    usageCount: Option<int>,
    createdAt: Option<string>,
    lastUsed: Option<string>,
    used: Option<bool>)   // legacy flag of the first key format

  /** The `max_uses` value that means "no limit". */
  const UNLIMITED: int := -1

  /** `key_data.get("max_uses", 1)` */
  function MaxUses(r: Record): int {
    r.maxUses.GetOr(1)
  }

  /** `key_data.get("usage_count", 0)` */
  function UsageCount(r: Record): int {
    r.usageCount.GetOr(0)
  }

  predicate IsUnlimited(r: Record) {
    MaxUses(r) == UNLIMITED
  }

  /** Python truthiness of `key_data.get("secret")`: a missing or empty secret is falsy. */
  predicate HasSecret(r: Record) {
    r.secret.Some? && r.secret.value != ""
  }

  /** The quota test shared by issuance and validation: unlimited, or fewer uses than the limit. */
  predicate HasRemainingUses(r: Record) {
    IsUnlimited(r) || UsageCount(r) < MaxUses(r)
  }

  /** The store invariant: a finite limit is never exceeded. */
  predicate WithinQuota(r: Record) {
    IsUnlimited(r) || UsageCount(r) <= MaxUses(r)
  }

  /** The names of the JSON fields present in the stored object. */
  function Fields(r: Record): set<string> {
    (if r.secret.Some? then {"secret"} else {})
    + (if r.maxUses.Some? then {"max_uses"} else {})
    + (if r.usageCount.Some? then {"usage_count"} else {})
    + (if r.createdAt.Some? then {"created_at"} else {})
    + (if r.lastUsed.Some? then {"last_used"} else {})
    + (if r.used.Some? then {"used"} else {})
  }

  /** The record of the first key format: `{"secret": secret, "used": false}`. */
  function LegacyRecord(secret: string): (r: Record)
    ensures Fields(r) == {"secret", "used"}
    ensures r.secret == Some(secret) && r.used == Some(false)
    ensures MaxUses(r) == 1 && UsageCount(r) == 0
  {
    Record(Some(secret), None, None, None, None, Some(false))
  }

  /**
   * The secret a new key gets: the one supplied, unless it is missing or empty
   * (`if not secret`), in which case the freshly generated one.
   */
  function ChosenSecret(supplied: Option<string>, generated: string): (s: string)
    ensures supplied.Some? && supplied.value != "" ==> s == supplied.value
    ensures (supplied.None? || supplied.value == "") ==> s == generated
    ensures s != "" <==> (supplied.Some? && supplied.value != "") || generated != ""
  {
    if supplied.Some? && supplied.value != "" then supplied.value else generated
  }
}
