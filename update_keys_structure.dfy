/**
 * update_keys_structure.py: the one-shot migration from the `used` flag to a
 * usage limit and count, which also installs two example keys.
 */
module UpdateKeysStructure {
  import opened Wrappers
  import opened KeyRecord

  const DEFAULT_CREATED_AT: string := "2025-01-01T00:00:00Z"

  const MULTI_USE_KEY: string := "MULTI_USE_KEY_001"
  const MULTI_USE_RECORD: Record :=
    Record(Some("JBSWY3DPEHPK3PXP"), Some(5), Some(0), Some(DEFAULT_CREATED_AT), None, None)

  const UNLIMITED_KEY: string := "UNLIMITED_KEY_001"
  const UNLIMITED_RECORD: Record :=
    Record(Some("GAXSW23XPQ4B2CZR"), Some(UNLIMITED), Some(0), Some(DEFAULT_CREATED_AT), None, None)

  /** Python truthiness of `data.get('used', False)`. */
  predicate WasUsed(r: Record) {
    r.used == Some(true)
  }

  /** The new-format record the migration writes for an old one. */
  function Migrated(data: Record): (r: Record)
    requires data.secret.Some?
    ensures r.secret == data.secret
    ensures MaxUses(r) == 1 && UsageCount(r) == (if WasUsed(data) then 1 else 0)
    ensures r.createdAt == Some(DEFAULT_CREATED_AT)
    ensures WithinQuota(r)
  {
    Record(data.secret, Some(1), Some(if WasUsed(data) then 1 else 0), Some(DEFAULT_CREATED_AT), None, None)
  }

  /** The loop of update_keys_structure: every old record rewritten in the new format. */
  method MigrateRecords(keys: map<string, Record>) returns (migrated: map<string, Record>)
    requires forall k :: k in keys ==> keys[k].secret.Some?
    ensures migrated.Keys == keys.Keys
    ensures forall k :: k in keys ==> migrated[k] == Migrated(keys[k])
  {
    migrated := map[];
    var pending := keys.Keys;
    while pending != {}
      invariant pending <= keys.Keys
      invariant migrated.Keys == keys.Keys - pending
      invariant forall k :: k in migrated ==> migrated[k] == Migrated(keys[k])
      decreases pending
    {
      var key :| key in pending;
      var data := keys[key];
      if data.used.GetOr(false) {
        migrated := migrated[key := Record(data.secret, Some(1), Some(1), Some(DEFAULT_CREATED_AT), None, None)];
      } else {
        migrated := migrated[key := Record(data.secret, Some(1), Some(0), Some(DEFAULT_CREATED_AT), None, None)];
      }
      pending := pending - {key};
    }
  }

  /**
   * update_keys_structure on the decoded file `keys`: every old key in the new
   * format, then the two example keys, which replace entries of the same name.
   * `count` is the number of keys reported as updated. A record without a
   * secret makes the migration raise before anything is written.
   */
  method UpdateKeysStructure(keys: map<string, Record>) returns (updated: map<string, Record>, count: nat)
    requires forall k :: k in keys ==> keys[k].secret.Some?
    ensures count == |keys|
    ensures updated.Keys == keys.Keys + {MULTI_USE_KEY, UNLIMITED_KEY}
    ensures updated[MULTI_USE_KEY] == MULTI_USE_RECORD
    ensures updated[UNLIMITED_KEY] == UNLIMITED_RECORD
    ensures forall k :: k in keys && k != MULTI_USE_KEY && k != UNLIMITED_KEY ==>
              updated[k] == Migrated(keys[k])
    ensures forall k :: k in updated ==> WithinQuota(updated[k]) && updated[k].used.None?
  {
    var migrated := MigrateRecords(keys);
    updated := migrated[MULTI_USE_KEY := MULTI_USE_RECORD];
    updated := updated[UNLIMITED_KEY := UNLIMITED_RECORD];
    assert MULTI_USE_KEY != UNLIMITED_KEY by {
      assert MULTI_USE_KEY[0] != UNLIMITED_KEY[0];
    }
    forall k | k in keys && k != MULTI_USE_KEY && k != UNLIMITED_KEY
      ensures updated[k] == Migrated(keys[k])
    {
      assert updated[k] == migrated[k];
    }
    forall k | k in updated
      ensures WithinQuota(updated[k]) && updated[k].used.None?
    {
      if k != MULTI_USE_KEY && k != UNLIMITED_KEY {
        assert updated[k] == Migrated(keys[k]);
      }
    }
    count := |keys|;
  }

  /** The two example keys are stored in the new format, without the legacy flag. */
  lemma ExampleRecordsInNewFormat()
    ensures Fields(MULTI_USE_RECORD) == {"secret", "max_uses", "usage_count", "created_at"}
    ensures Fields(UNLIMITED_RECORD) == {"secret", "max_uses", "usage_count", "created_at"}
    ensures WithinQuota(MULTI_USE_RECORD) && WithinQuota(UNLIMITED_RECORD)
    ensures "used" !in Fields(MULTI_USE_RECORD) && "used" !in Fields(UNLIMITED_RECORD)
  {
  }

  /** A migrated record has exactly the four fields of the new format; the legacy flag is gone. */
  lemma MigratedFields(data: Record)
    requires data.secret.Some?
    ensures Fields(Migrated(data)) == {"secret", "max_uses", "usage_count", "created_at"}
  {
  }

  /** A key that was used before the migration is depleted after it; an unused one has its one use. */
  lemma MigratedKeepsUsability(data: Record)
    requires data.secret.Some?
    ensures HasRemainingUses(Migrated(data)) <==> !WasUsed(data)
  {
  }
}
