/**
 * The administrative edits of key_manager.py: add a key with a usage limit,
 * change the limit, reset the count, delete a key, and the status shown for a
 * key when the keys are listed or one key is shown.
 *
 * Each edit reads the key file, changes one entry of its local copy and saves
 * it; the value returned is whether the save succeeded. Changing the limit and
 * resetting the count index the record directly (`keys[k]["max_uses"]`), so on
 * a record without that field they raise KeyError before anything is saved.
 */
module KeyManager {
  import opened Wrappers
  import opened KeyRecord
  import opened TotpGenerator

  /** What an edit that may raise hands back: a bool, or the KeyError for a missing field. */
  datatype Reply = Returned(ok: bool) | KeyErrorRaised(field: string)

  /** The record add_key stores. */
  function NewRecord(secret: string, maxUses: int, createdAt: string): (r: Record)
    ensures Fields(r) == {"secret", "max_uses", "usage_count", "created_at"}
    ensures r.secret == Some(secret) && r.createdAt == Some(createdAt)
    ensures MaxUses(r) == maxUses && UsageCount(r) == 0
  {
    Record(Some(secret), Some(maxUses), Some(0), Some(createdAt), None, None)
  }

  /**
   * add_key: refuse a name that exists; otherwise store a record with no uses,
   * the given limit (1 unless one is passed), the supplied secret (or
   * `generated` when none is supplied) and creation time `now`.
   */
  method AddKey(store: KeyStore, keyName: string, generated: string, now: string, saveOk: bool,
                secret: Option<string> := None, maxUses: int := 1) returns (ok: bool)
    modifies store
    ensures keyName in old(store.keys) ==> !ok && store.keys == old(store.keys)
    ensures keyName !in old(store.keys) ==> ok == saveOk
    ensures store.keys == if ok then old(store.keys)[keyName := NewRecord(ChosenSecret(secret, generated), maxUses, now)]
                          else old(store.keys)
  {
    var keys := store.keys;
    if keyName in keys {
      return false;
    }
    var chosen := secret.GetOr("");
    if chosen == "" {
      chosen := generated;
    }
    keys := keys[keyName := Record(Some(chosen), Some(maxUses), Some(0), Some(now), None, None)];
    ok := store.Save(keys, saveOk);
  }

  /**
   * modify_key_usage: set the limit of an existing key, with no check against
   * its count. False for an unknown key; KeyError when the record has no
   * `max_uses` field.
   */
  method ModifyKeyUsage(store: KeyStore, keyName: string, newMaxUses: int, saveOk: bool)
    returns (r: Reply)
    modifies store
    ensures keyName !in old(store.keys) ==> r == Returned(false)
    ensures keyName in old(store.keys) && old(store.keys)[keyName].maxUses.None? ==>
              r == KeyErrorRaised("max_uses")
    ensures keyName in old(store.keys) && old(store.keys)[keyName].maxUses.Some? ==>
              r == Returned(saveOk)
    ensures store.keys == if r == Returned(true)
                          then old(store.keys)[keyName := old(store.keys)[keyName].(maxUses := Some(newMaxUses))]
                          else old(store.keys)
  {
    var keys := store.keys;
    if keyName !in keys {
      return Returned(false);
    }
    if keys[keyName].maxUses.None? {
      return KeyErrorRaised("max_uses");
    }
    keys := keys[keyName := keys[keyName].(maxUses := Some(newMaxUses))];
    var saved := store.Save(keys, saveOk);
    r := Returned(saved);
  }

  /** reset_key_usage's change to a record. */
  function ResetUsage(r: Record): (r': Record)
    ensures UsageCount(r') == 0 && r'.usageCount.Some?
    ensures r' == r.(usageCount := r'.usageCount)
  {
    r.(usageCount := Some(0))
  }

  /**
   * reset_key_usage: set the count of an existing key to 0. False for an
   * unknown key; KeyError when the record has no `usage_count` field.
   */
  method ResetKeyUsage(store: KeyStore, keyName: string, saveOk: bool) returns (r: Reply)
    modifies store
    ensures keyName !in old(store.keys) ==> r == Returned(false)
    ensures keyName in old(store.keys) && old(store.keys)[keyName].usageCount.None? ==>
              r == KeyErrorRaised("usage_count")
    ensures keyName in old(store.keys) && old(store.keys)[keyName].usageCount.Some? ==>
              r == Returned(saveOk)
    ensures store.keys == if r == Returned(true)
                          then old(store.keys)[keyName := ResetUsage(old(store.keys)[keyName])]
                          else old(store.keys)
  {
    var keys := store.keys;
    if keyName !in keys {
      return Returned(false);
    }
    if keys[keyName].usageCount.None? {
      return KeyErrorRaised("usage_count");
    }
    keys := keys[keyName := keys[keyName].(usageCount := Some(0))];
    var saved := store.Save(keys, saveOk);
    r := Returned(saved);
  }

  /** delete_key: remove an existing key; false for an unknown one. */
  method DeleteKey(store: KeyStore, keyName: string, saveOk: bool) returns (ok: bool)
    modifies store
    ensures keyName !in old(store.keys) ==> !ok
    ensures keyName in old(store.keys) ==> ok == saveOk
    ensures store.keys == if ok then old(store.keys) - {keyName} else old(store.keys)
  {
    var keys := store.keys;
    if keyName !in keys {
      return false;
    }
    keys := keys - {keyName};
    ok := store.Save(keys, saveOk);
  }

  // ---------------------------------------------------------------------------
  // Status classification (list_keys, show_key_info)
  // ---------------------------------------------------------------------------

  /** The status shown for a key: unlimited, active, low (one use left) or depleted. */
  datatype Status = Unlimited | Active | Low | Depleted

  datatype Colour = Green | Yellow | Red

  /** The status of a key with limit `maxUses` and count `usageCount`. */
  function Classify(maxUses: int, usageCount: int): (s: Status)
    ensures s == Unlimited <==> maxUses == UNLIMITED
    ensures s == Active <==> maxUses != UNLIMITED && maxUses - usageCount > 1
    ensures s == Low <==> maxUses != UNLIMITED && maxUses - usageCount == 1
    ensures s == Depleted <==> maxUses != UNLIMITED && maxUses - usageCount <= 0
  {
    if maxUses == UNLIMITED then Unlimited
    else
      var remaining := maxUses - usageCount;
      if remaining > 0 then (if remaining > 1 then Active else Low)
      else Depleted
  }

  /** list_keys' status of a record, with the readers' defaults. */
  function StatusOf(r: Record): Status {
    Classify(MaxUses(r), UsageCount(r))
  }

  /** The marker list_keys prints beside each status. */
  function ColourOf(s: Status): (c: Colour)
    ensures c == Red <==> s == Depleted
    ensures c == Yellow <==> s == Low
  {
    match s
    case Unlimited => Green
    case Active => Green
    case Low => Yellow
    case Depleted => Red
  }

  /**
   * list_keys: the status of every key in the file. The keys are visited one
   * at a time, in no particular order.
   */
  method ListKeys(store: KeyStore) returns (report: map<string, Status>)
    ensures report.Keys == store.keys.Keys
    ensures forall k :: k in report ==> report[k] == StatusOf(store.keys[k])
  {
    var keys := store.keys;
    report := map[];
    var pending := keys.Keys;
    while pending != {}
      invariant pending <= keys.Keys
      invariant report.Keys == keys.Keys - pending
      invariant forall k :: k in report ==> report[k] == StatusOf(keys[k])
      decreases pending
    {
      var keyName :| keyName in pending;
      var keyData := keys[keyName];
      var maxUses := keyData.maxUses.GetOr(1);
      var usageCount := keyData.usageCount.GetOr(0);
      var status;
      if maxUses == UNLIMITED {
        status := Unlimited;
      } else {
        var remaining := maxUses - usageCount;
        if remaining > 0 {
          status := if remaining > 1 then Active else Low;
        } else {
          status := Depleted;
        }
      }
      report := report[keyName := status];
      pending := pending - {keyName};
    }
  }

  /** show_key_info: the status it derives from get_key_info's reply; None for an unknown key. */
  function ShowKeyStatus(info: KeyInfo): (s: Option<Status>)
    ensures s.None? <==> info.Missing?
    ensures info.Found? && info.maxUses == UNLIMITED ==> s == Some(Unlimited)
    ensures info.Found? && info.maxUses != UNLIMITED && info.remaining.Uses? ==>
              s == Some(Classify(info.maxUses, info.maxUses - info.remaining.count))
  {
    match info
    case Missing => None
    case Found(maxUses, _, remaining, _, _, _) =>
      if maxUses == UNLIMITED then Some(Unlimited)
      else
        var left := if remaining.Uses? then remaining.count else 0;
        if left > 0 then Some(if left > 1 then Active else Low)
        else Some(Depleted)
  }

  // ---------------------------------------------------------------------------
  // Properties
  // ---------------------------------------------------------------------------

  /** show_key_info and list_keys show the same status for every key, and nothing for an unknown one. */
  lemma ShowAgreesWithList(keys: map<string, Record>, keyName: string)
    ensures ShowKeyStatus(GetKeyInfo(keys, keyName)) ==
              if keyName in keys then Some(StatusOf(keys[keyName])) else None
  {
  }

  /** A key is shown depleted (red) exactly when validation and issuance refuse it for its quota. */
  lemma DepletedIffRefused(keys: map<string, Record>, keyName: string)
    requires keyName in keys
    ensures StatusOf(keys[keyName]) == Depleted <==> !ValidateKey(keys, keyName)
    ensures ColourOf(StatusOf(keys[keyName])) == Red <==>
              Admission(keys, keyName).Some? && Admission(keys, keyName).value.UsageLimitReached?
  {
  }

  /**
   * One issuance moves a key at most one step down: a depleted key is left as
   * it was, a low key that gets a code becomes depleted, an active key stays
   * active or becomes low, and an unlimited key stays unlimited.
   */
  lemma UseLowersStatus(keys: map<string, Record>, keyName: string,
                        totp: string -> Option<string>, now: string, saveOk: bool)
    requires keyName in keys
    ensures var out := Issue(keys, keyName, totp, now, saveOk);
            var before, after := StatusOf(keys[keyName]), StatusOf(out.keys[keyName]);
            && (before == Depleted ==> out.keys[keyName] == keys[keyName] && out.result.Failed?)
            && (before == Low ==> after == (if out.result.Code? then Depleted else Low))
            && (before == Active ==> after in {Active, Low})
            && (before == Unlimited ==> after == Unlimited)
  {
  }

  /** A key made by add_key is usable exactly when its limit is unlimited or positive. */
  lemma NewKeyUsableIff(keys: map<string, Record>, keyName: string, secret: string, maxUses: int, now: string)
    ensures ValidateKey(keys[keyName := NewRecord(secret, maxUses, now)], keyName) <==>
              maxUses == UNLIMITED || maxUses > 0
  {
  }

  /**
   * The new limit alone decides validity after modify_key_usage; nothing
   * stops it falling below the count, so the remaining uses get_key_info
   * reports can be negative.
   */
  lemma ModifiedLimitGoverns(keys: map<string, Record>, keyName: string, newMaxUses: int)
    requires keyName in keys
    ensures var after := keys[keyName := keys[keyName].(maxUses := Some(newMaxUses))];
            && (ValidateKey(after, keyName) <==> newMaxUses == UNLIMITED || UsageCount(keys[keyName]) < newMaxUses)
            && (newMaxUses != UNLIMITED ==>
                  GetKeyInfo(after, keyName).remaining == Uses(newMaxUses - UsageCount(keys[keyName])))
  {
  }

  /** Resetting twice is resetting once, and a reset key is usable unless its limit is 0 or below. */
  lemma ResetIdempotent(keys: map<string, Record>, keyName: string)
    requires keyName in keys
    ensures var once := keys[keyName := ResetUsage(keys[keyName])];
            && once[keyName := ResetUsage(once[keyName])] == once
            && (ValidateKey(once, keyName) <==> IsUnlimited(keys[keyName]) || MaxUses(keys[keyName]) > 0)
  {
  }

  /** After delete_key succeeds the key is unknown to every reader. */
  lemma DeletedKeyIsUnknown(keys: map<string, Record>, keyName: string,
                            totp: string -> Option<string>, now: string, saveOk: bool)
    ensures GetKeyInfo(keys - {keyName}, keyName) == Missing
    ensures Issue(keys - {keyName}, keyName, totp, now, saveOk).result == Failed(InvalidKey)
  {
  }
}
