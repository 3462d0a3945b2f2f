# Access-key store of the TOTP code service

This project models the access-key store of a small two-factor service. A
holder of an access key asks for a time-based one-time code. The service hands
one out only while the key has uses left, and it counts each code it hands out.

The store is the JSON file `keys.json`. It maps a key name to a record with up
to six fields: `secret`, `max_uses` (`-1` means unlimited), `usage_count`,
`created_at`, `last_used`, and the legacy flag `used`. Every reader uses the
same defaults: `max_uses` 1 and `usage_count` 0.

Modules, one per source file, plus the shared record module `KeyRecord` and
the `Option` type in `Wrappers`:

- `KeyRecord` (`key_record.dfy`): the record, with every field optional. Also
  the defaults, the quota predicates, and the first-format record
  `{secret, used: false}`.
- `TotpGenerator` (`totp_generator.dfy`): the `KeyStore` class, whose `keys`
  field is the file. `Save` models `save_keys`, which may fail. The module also
  has code issuance (`GenerateTotpCode`, proved equal to the specification
  function `Issue`), `ValidateKey`, `GetKeyInfo`, `AddNewKey`, the refusal texts
  (`Message`), and the lemmas `QuotaBoundsSuccesses` and `RunKeepsWithinQuota`,
  stated over the functions `Run` and `Successes`, which apply any sequence of
  issuance calls.
- `KeyManager` (`key_manager.dfy`): the administrative edits `AddKey`,
  `ModifyKeyUsage`, `ResetKeyUsage` and `DeleteKey`. Also the status shown by
  `list_keys` and `show_key_info`.
- `UpdateKeysStructure` and `ConvertKeys`: the two one-shot migrations, each
  modelled as a method from the old contents to the new map.

Every operation first reads `store.keys` (this is `load_keys`). It then edits a
local copy and passes the copy to `Save` with a flag `saveOk` that says whether
the write succeeds. A failed save leaves the store unchanged, and every
mutating operation returns true exactly when the save succeeded.

`modify_key_usage` and `reset_key_usage` read `keys[k]["max_uses"]` and
`keys[k]["usage_count"]` with plain indexing. On a record without that field
they raise `KeyError` before anything is saved. Records written by
`add_new_key` and `convert_keys` lack both fields. The model returns
`KeyErrorRaised(field)` in that case and leaves the store unchanged.

The model follows the code:

- There is no expiry, active flag, service scope or audit log.
- The increment takes no lock; it is a plain read, add and save.
- `add_key` and `modify_key_usage` accept any limit. The limit may be 0, below
  -1, or below the current count, so an administrative edit can leave a key
  whose count exceeds its limit.
- Issuance never breaks that invariant (`IssueKeepsWithinQuota`,
  `RunKeepsWithinQuota`).

## Model

| member | source | states |
|---|---|---|
| `KeyRecord.LegacyRecord` | totp_generator.py:171-174 | the first-format record has exactly the fields `secret` and `used`, with `used` false; the readers see it as limit 1, count 0 |
| `KeyRecord.ChosenSecret` | key_manager.py:20-21 | a new key gets the supplied secret unless it is missing or empty, otherwise the generated one |
| `TotpGenerator.KeyStore.Save` | totp_generator.py:19-27 | a save returns whether it succeeded; on failure the stored keys are unchanged |
| `TotpGenerator.Admission` | totp_generator.py:43-59 | the checks run in the order existence, quota, secret: each error is reported exactly when the earlier checks pass and this one fails; the limit error carries the count and limit read with the defaults |
| `TotpGenerator.RecordUse` | totp_generator.py:65-69 | a success raises the count by exactly 1 and sets `last_used`; the limit and every other field are unchanged, and only `usage_count` and `last_used` can appear as new fields |
| `TotpGenerator.Issue` | totp_generator.py:40-75 | a code is issued exactly when the key exists, has uses left, has a non-empty secret, the code can be computed and the save succeeds; any failure leaves the store unchanged; on success only that key's record changes, by `RecordUse`; the key set never changes |
| `TotpGenerator.GenerateTotpCode` | totp_generator.py:29-78 | the reply and the new store are exactly those of `Issue` on the old store |
| `TotpGenerator.ValidateKey` | totp_generator.py:93-107 | true exactly when the key exists and its limit is -1 or its count is below the limit (with the defaults) |
| `TotpGenerator.GetKeyInfo` | totp_generator.py:126-141 | an unknown key gives `Missing`; otherwise it reports the limit and count with their defaults, `remaining` is "unlimited" exactly when the limit is -1 and is otherwise limit minus count, `isValid` equals `ValidateKey`, and `isValid` holds exactly when the remaining uses are unlimited or positive |
| `TotpGenerator.AddNewKey` | totp_generator.py:150-180 | a duplicate key returns false and changes nothing; otherwise exactly one entry `{secret, used: false}` is added, with the generated secret when none is passed (the default), and the result is whether the save succeeded |
| `TotpGenerator.Message` | totp_generator.py:45-78 | the text each refusal returns, as at lines 45, 54, 59, 73 and 78 (the exception text after "Error generating TOTP code: " is dropped): each kind starts with its own letter, and the usage-limit text is "Key has reached its usage limit (", the count, "/", the limit and " uses)"; `MessageDeterminesError` proves the texts injective |
| `TotpGenerator.IntToString` | totp_generator.py:54 | the decimal text of a count or limit, as Python's f-string writes it: non-empty, a minus sign exactly when negative and nowhere else, digits without leading zeros, and reading back as that integer |
| `TotpGenerator.LimitMessageDeterminesCounts` | totp_generator.py:54 | two usage-limit messages are equal only when they carry the same count and the same limit |
| `TotpGenerator.MessageDeterminesError` | totp_generator.py:45-78 | each refusal has its own text: equal messages come from equal errors |
| `TotpGenerator.ValidateAgreesWithIssuance` | totp_generator.py:94-107 | validation succeeds exactly when issuance passes its existence and quota checks; a key that fails validation never gets a code |
| `TotpGenerator.UnlimitedNeverRefused` | totp_generator.py:52-54 | a key with limit -1 is valid and never refused for its quota, whatever its count |
| `TotpGenerator.IssueKeepsWithinQuota` | totp_generator.py:52-69 | if every record is within its quota before an issuance, every record is within its quota after it |
| `TotpGenerator.QuotaBoundsSuccesses` | totp_generator.py:44-73 | over any sequence of issuance calls on any keys, the count of key k rises by exactly the number of codes issued for k and its limit never changes; with a finite limit m and count c, at most m - c codes are issued (none when c ≥ m) |
| `TotpGenerator.RunKeepsWithinQuota` | totp_generator.py:44-73 | over any sequence of issuance calls, a store whose records are within quota stays within quota |
| `TotpGenerator.NewLegacyKeyUsableOnce` | totp_generator.py:171-174 | a key added by `add_new_key` with a non-empty secret passes every issuance check and has exactly one use remaining |
| `KeyManager.NewRecord` | key_manager.py:24-29 | the record `add_key` stores has the four new-format fields, the given secret, limit and creation time, and count 0 |
| `KeyManager.AddKey` | key_manager.py:12-37 | an existing name returns false and changes nothing; otherwise exactly one `NewRecord` entry is added, with the supplied or generated secret and the given limit, which defaults to 1 as in Python, and the result is whether the save succeeded |
| `KeyManager.ModifyKeyUsage` | key_manager.py:39-57 | an unknown key returns false; a record without `max_uses` raises KeyError; otherwise only that key's `max_uses` changes, with no check against its count, and the result is whether the save succeeded; nothing changes unless true is returned |
| `KeyManager.ResetUsage` | key_manager.py:67-68 | the count becomes 0 and every other field is unchanged |
| `KeyManager.ResetKeyUsage` | key_manager.py:59-75 | an unknown key returns false; a record without `usage_count` raises KeyError; otherwise only that key's record changes, by `ResetUsage`, and the result is whether the save succeeded |
| `KeyManager.DeleteKey` | key_manager.py:111-126 | an unknown key returns false; otherwise exactly that key is removed and the result is whether the save succeeded; nothing changes unless true is returned |
| `KeyManager.Classify` | key_manager.py:93-103 | limit -1 is unlimited; otherwise remaining above 1 is active, exactly 1 is low, and 0 or below is depleted |
| `KeyManager.ColourOf` | key_manager.py:95-103 | red exactly for depleted, yellow exactly for low, green otherwise |
| `KeyManager.ListKeys` | key_manager.py:77-109 | reports a status for exactly the stored keys, each the classification of its record with the defaults |
| `KeyManager.ShowKeyStatus` | key_manager.py:139-154 | no status exactly for an unknown key; limit -1 shows unlimited; otherwise the status is the classification of the limit against the reported remaining uses |
| `KeyManager.ShowAgreesWithList` | key_manager.py:139-154 | the status `show_key_info` derives from `get_key_info` is the one `list_keys` shows, and there is none for an unknown key |
| `KeyManager.DepletedIffRefused` | key_manager.py:97-103 | a key is shown depleted (red) exactly when validation fails and issuance refuses it with the usage-limit error |
| `KeyManager.UseLowersStatus` | key_manager.py:97-103 | one issuance leaves a depleted key unchanged and refused, turns a low key depleted exactly when it issues a code, leaves an active key active or low, and an unlimited key unlimited |
| `KeyManager.NewKeyUsableIff` | key_manager.py:24-29 | a key made by `add_key` is valid exactly when its limit is -1 or positive |
| `KeyManager.ModifiedLimitGoverns` | key_manager.py:47-48 | after a limit change, validity depends on the new limit and the old count alone, and the reported remaining uses are the new limit minus the count, which may be negative |
| `KeyManager.ResetIdempotent` | key_manager.py:67-68 | resetting twice equals resetting once, and a reset key is valid exactly when its limit is -1 or positive |
| `KeyManager.DeletedKeyIsUnknown` | key_manager.py:119 | after deletion the key has no info and issuance answers "Invalid key provided" |
| `UpdateKeysStructure.Migrated` | update_keys_structure.py:15-30 | a migrated record keeps its secret, has limit 1, count 1 if `used` was true and 0 otherwise (a missing `used` counts as false), the default creation time, and is within quota |
| `UpdateKeysStructure.MigrateRecords` | update_keys_structure.py:13-30 | every input key is present in the output with its `Migrated` record, and no other key is |
| `UpdateKeysStructure.UpdateKeysStructure` | update_keys_structure.py:11-51 | the output keys are the input keys plus the two example keys; the examples (limit 5 and limit -1, count 0) replace any entry of the same name; every other key has its `Migrated` record; every record is within quota and has no `used` field; the reported count is the number of input keys |
| `UpdateKeysStructure.MigratedFields` | update_keys_structure.py:17-30 | a migrated record has exactly the fields `secret`, `max_uses`, `usage_count` and `created_at` |
| `UpdateKeysStructure.ExampleRecordsInNewFormat` | update_keys_structure.py:33-45 | both example records have the four new-format fields, no `used` field, and are within quota |
| `UpdateKeysStructure.MigratedKeepsUsability` | update_keys_structure.py:15-30 | a migrated key has a use left exactly when it had not been used |
| `ConvertKeys.LastIndex` | convert_keys.py:14-17 | the index returned is the last occurrence of the key, or -1 exactly when the key does not occur |
| `ConvertKeys.ConvertKeys` | convert_keys.py:14-26 | the output keys are exactly the distinct input keys, so the output size is their number; every record has exactly the fields `secret` and `used`, with `used` false and the secret generated at the key's last occurrence; the reported count is the input length |

## Left out

- JSON file I/O. `load_keys` returns `{}` on a missing or malformed file; the model starts from the decoded map instead.
- `TotpGenerator.KeyStore.Save`: `save_keys` truncates the file before writing. A write that fails part-way can leave a malformed file, which the next load reads as `{}`. The model keeps the old contents on every failed save.
- JSON value types. Fields are taken to hold integers, strings and booleans. A JSON `null` is treated like a missing field, and a non-boolean `used` value is not modelled. The type errors that the generic exception handlers would catch are not modelled either: `validate_key` returning false, `get_key_info` returning `{"exists": False, "error": ...}`, and issuance's "Error generating TOTP code" for anything other than pyotp failing.
- The TOTP value (`pyotp.TOTP(secret).now()`, RFC 6238) is the parameter `totp`, where None means pyotp raised. The random secrets of `pyotp.random_base32` are the parameters `generated` and `secrets`. The current time is the parameter `now`.
- `TotpGenerator.Message`: the text of the caught exception after "Error generating TOTP code: " is not modelled, so every TOTP failure has the same message.
- `KeyManager.ListKeys`: the printing order is not modelled. Python dicts keep insertion order; the model's map does not, so the loop visits keys in any order.
- The interactive menu of `key_manager.main`, its input parsing (an empty or invalid limit becomes 1), the emoji and the printed texts. Only the status classification is kept.
- `ConvertKeys.ConvertKeys` requires one generated secret per input key (`|secrets| == |oldKeys|`). The input is taken as a sequence of names; iterating a JSON object yields its keys the same way. The sample printout of the first three keys is left out.
- `UpdateKeysStructure.UpdateKeysStructure` requires every input record to have a `secret`, because the code raises KeyError on one without it before writing anything. The sample printout is left out.
- The read-modify-write race between concurrent processes on `keys.json`. The model is sequential.
- The Flask routes in `app.py`, the IMAP mail reader, and the browser script. They are adapters around this store, or separate programs.
- Expiry, the active flag, the service scope, the audit log, email scanning and code extraction. None of these exist in the modelled code.
