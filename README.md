# Pods Multisite: `sync_pod`

This project models `Pods_Multisite_Sync::sync_pod` from the Pods Multisite
plugin for WordPress. After a Pod (a content type) is saved on one site of a
multisite network, `sync_pod` copies its definition to every site listed in
the Pod's option `multisite_sync_to_sites`. The steps are:

- Load the Pod, and return immediately unless the option is a non-empty array.
- Drop the Pod id and every field id.
- Collect the relationship fields (`$rel`). For each one, load its sister
  field by id on the source site.
- For each target entry that is numeric and is not the current site:
  - switch to that site;
  - find the Pod there by name, or by its old name as a fallback;
  - adopt the remote Pod id and the remote field ids;
  - re-resolve each sister field by (related Pod, name) on the target;
  - save the record.
- Restore the current site, once, after the loop.

The model is in four modules:

- `PodData` (`pod_data.dfy`) holds the records: `Pod`, `Field`,
  `RemotePod`, the target list `SyncSetting`, and the write
  `$fields[$name][attr] = value` as `Assign`. Pods keys the field array by
  field name, so the field list is a sequence and `Assign` writes to the entry
  with that name.
- `SyncSpec` (`sync_spec.dfy`) has one function per loop, each giving the
  state after its first `k` iterations: `RelsUpTo`, `AdoptUpTo`, `RelinkUpTo`
  and `TargetsUpTo`. `SyncTrace` is every call the method makes, in order, as
  a sequence of `Event`s. The answers of the Pods API on each site are the
  input `Api`. The module also gives independent reference definitions:
  - `ValidTargets`: the entries that get synchronised;
  - `Switches` and `SavedAt`: the switches, and the saves with the site
    active at each;
  - `Replay` over `Ambient`: WordPress's active site and its stack of
    switched-from sites;
  - `AdoptedId` and `RelinkedSister`: each field's resulting id and
    sister id.
- `MultisiteSync` (`sync.dfy`) is the method itself. It is imperative like
  the PHP code: one method per loop, each with loop invariants, and each
  proved to compute the `SyncSpec` function for that loop. `SyncPod` is
  proved to return `SyncTrace`.
- `SyncProperties` (`sync_properties.dfy`) proves what `SyncTrace`
  guarantees:
  - which switches, saves and restores happen;
  - which record is saved on each site, field by field.

### Where the code differs from what the plugin describes

The model follows the code as written. Four behaviours differ from the
plugin's evident design, and the lemmas state each one as it is:

- **`pod_id` is off by one.** Line 106 writes `pod_id` under `$name` before
  line 108 moves `$name` to the current field. `$name` is left over from the
  previous loop, so it carries across loops and across targets.
  - On the first target processed, every field still gets the remote Pod's
    id (`FirstTargetPodIds`).
  - On later targets with a non-empty `$rel`, `$name` starts at the last key
    of `$rel`. The last field then gets the remote id only if it is itself a
    relationship field. Otherwise it keeps the source site's `pod_id`
    (`LaterTargetPodIds`).
- **A stale sister id survives.** Line 125 skips a relationship whose sister
  field was not found on the source site. That field keeps the source site's
  `sister_id` on every target (`SavedSisters`).
- **The source `pod_id` survives without a remote Pod.** When no Pod is found
  on the target, line 106 never runs, and line 50 removed only the field ids.
  So every saved field keeps the `pod_id` of the source site
  (`MissingPodKeepsPodIds`).
- **The site is restored once.** `restore_current_blog` is called once, after
  the loop (line 146), while `switch_to_blog` is called once per target. With
  two processed targets or more, the site left active is the next-to-last target, not
  the source site (`SyncLeavesSite`).

## Model

| member | source | states |
|---|---|---|
| `MultisiteSync.SyncPod` | classes/sync.class.php:39-147 | The calls made are exactly `SyncTrace`. Without a configured Pod there are none. Otherwise the last call is the restore. |
| `MultisiteSync.StripIds` | classes/sync.class.php:48-51 | The Pod id and every field id are removed. Everything else is unchanged: names, order and the other attributes. |
| `MultisiteSync.ExtractRelationships` | classes/sync.class.php:59-69 | `$rel` and the `load_field` calls are `RelsUpTo` over all fields. `$name` afterwards is the last field's name. |
| `MultisiteSync.LoadRemotePod` | classes/sync.class.php:82-85 | The `load_pod` calls and the Pod found are those of `FindRemotePod`. |
| `MultisiteSync.AdoptFieldIds` | classes/sync.class.php:104-120 | The fields and `$name` after the loop are `AdoptUpTo`, with `$name` carried in from before. |
| `MultisiteSync.RelinkSisters` | classes/sync.class.php:123-139 | The fields, the `load_field` calls and `$name` after the loop are `RelinkUpTo`. |
| `MultisiteSync.SyncToSite` | classes/sync.class.php:80-143 | For one target, the calls from switch to save, the record saved and `$name` afterwards are `ReconcileTarget`. |
| `SyncSpec.FindRemotePod` | classes/sync.class.php:82-85 | It looks up by name first, and by old name only when the name finds nothing and the old name is set and differs from the name. When the name misses, the Pod found is the one under the old name. The lookup finds nothing exactly when both miss. |
| `PodData.Find` | classes/sync.class.php:106-136 | Returns the first position of a key, or -1 exactly when the key is absent. |
| `PodData.AssignAt` | classes/sync.class.php:106-136 | With distinct names, writing under field `m`'s name changes field `m` only and keeps every name. |
| `PodData.AssignMissing` | classes/sync.class.php:106-136 | Writing under a name that is not a key changes nothing. |
| `SyncProperties.RelsUpToShape` | classes/sync.class.php:61-69 | `$rel` has one entry per relationship field (type `pick`, a sister id, a related Pod) under that field's name, and no other entries. Each entry holds the sister's name as found on the source site. Call `j` is the `load_field` by id of the sister of entry `j`'s field, so there is one call per entry, in order. The keys are distinct. |
| `SyncProperties.AdoptUpToName` | classes/sync.class.php:104-108 | The field loop makes no call and leaves `$name` at the last field it visited. |
| `SyncProperties.AdoptUpToShape` | classes/sync.class.php:104-120 | After `k` iterations, each visited field has the id `AdoptedId` gives. `pod_id` is set on fields `0..k-2` and on the field named by `$name` on entry; no other field gets it. |
| `SyncProperties.RelinkUpToCalls` | classes/sync.class.php:124-131 | The relationship loop makes only `load_field` calls. It leaves `$name` at the last key of `$rel`. |
| `SyncProperties.RelinkUpToShape` | classes/sync.class.php:124-139 | A field whose sister was found on the source site gets the target's field id, or `false`. Every other field is unchanged. Names are kept. |
| `SyncProperties.StrippedNames` | classes/sync.class.php:48-51 | Removing the ids keeps the number of fields, their names and the last name. |
| `SyncProperties.StoreFields` | classes/sync.class.php:86-143 | The record saved for one target, field by field: the id is adopted (or unset when no remote Pod was found), `pod_id` is set as line 106 dictates, and `sister_id` is re-resolved. Nothing else changes. |
| `SyncProperties.StoreShape` | classes/sync.class.php:86-97 | The record saved keeps every attribute of the source Pod except the id and the fields. The id is the remote Pod's id, or unset. The value of `$name` afterwards is also stated. |
| `SyncProperties.ReconcileEvents` | classes/sync.class.php:80-143 | For one target: exactly one switch, to that site, and it is the first call. The last call is the one save, made on that site. Every call in between is an API read. There is no restore. |
| `SyncProperties.ReconcileOrder` | classes/sync.class.php:80-143 | For one target: the first call is the switch to the site, the last is the save of the record, and every call in between is a read. |
| `SyncProperties.TargetsSwitches` | classes/sync.class.php:73-144 | After the first `k` entries, the switches are `ValidTargets` of those entries, in order. There is no restore. The active site is the last target switched to, with every earlier site on the stack. |
| `SyncProperties.TargetsSaves` | classes/sync.class.php:73-144 | After the first `k` entries, there is one save per valid target, in order, made on that target, of the record lines 80-143 build. When one pass turns `$name` from `c` into `c2` and keeps `c2`, the first save uses `c` and every later one uses `c2`. |
| `SyncProperties.SyncNoOp` | classes/sync.class.php:42-46 | No Pod, or an empty or non-array target option: no call at all. |
| `SyncProperties.Framed` | classes/sync.class.php:59-146 | Reads, then the target calls, then one restore. The switches and saves are those of the target calls, and the restore is the only one. |
| `SyncProperties.SyncTargets` | classes/sync.class.php:71-146 | Switches go to exactly the valid targets, in list order, with repeats. The restore happens exactly once, last. Save `j` happens on valid target `j` and saves `StoreFor(j)`. The API's answers are the ones taken before the loop (see Left out). |
| `SyncProperties.RestoreFrontier` | classes/sync.class.php:146 | One restore after a chain of switches steps back one site only. |
| `SyncProperties.SyncLeavesSite` | classes/sync.class.php:146 | The site left active is the source site only when at most one target was processed; otherwise it is the next-to-last target. `\|vt\| - 1` switched-from sites remain on the stack. |
| `SyncProperties.ValidTargetsMembers` | classes/sync.class.php:73-78 | A site is synchronised exactly when it is a numeric entry of the list and is not the current site. |
| `SyncProperties.CarriedIsName` | classes/sync.class.php:61-124 | The `$name` carried into each target is a field's name, unless the Pod has no fields. So line 106 never writes to a missing entry. |
| `SyncProperties.SavedRecord` | classes/sync.class.php:86-143 | Save `j` is the source Pod with the remote Pod's id (or none). Each field differs only in its id, `pod_id` and `sister_id`, as `SavedField` says, with `$name` equal to `CarriedAt(j)`. |
| `SyncProperties.SavedFieldIds` | classes/sync.class.php:108-119 | Field ids in priority order: the remote field of the same name; else the remote field of the old name, when the old name is set and differs; else none. Without a remote Pod, no field has an id. |
| `SyncProperties.FirstTargetPodIds` | classes/sync.class.php:104-108 | On the first target processed, every field gets the remote Pod's id as `pod_id`. |
| `SyncProperties.LaterTargetPodIds` | classes/sync.class.php:104-139 | On later targets, every field but the last gets the remote id. The last field gets it when it is a relationship field or `$rel` is empty; otherwise it keeps the source `pod_id`. |
| `SyncProperties.LastRelationKey` | classes/sync.class.php:61-69 | When `$rel` is not empty, its last key is the last field's name exactly when the last field is a relationship. |
| `SyncProperties.RenamedPodAdopted` | classes/sync.class.php:82-119 | When no Pod on the target has the source Pod's name but one has its old name, the saved record takes that Pod's id, and its field ids come from that Pod. |
| `SyncProperties.MissingPodKeepsPodIds` | classes/sync.class.php:95-121 | Without a remote Pod, the record is saved with no Pod id and no field ids. Every field keeps its source `pod_id`. |
| `SyncProperties.SavedSisters` | classes/sync.class.php:124-138 | Non-relationship fields keep their `sister_id`. So do relationship fields whose sister was not found on the source site. Every other relationship field gets the target's field of the related Pod with the sister's name, or `false`. |

## Left out

- The plugin bootstrap, the singleton and the hook registration (lines 18-34) are not modelled. They only wire `sync_pod` to Pods' save event.
- `pod_settings_tab` and `pod_settings_options` (lines 157-185) are not modelled. They only declare the admin option that holds the target list.
- The Pods API is not modelled; its answers are the input `Api`:
  - on each site, the Pods by name;
  - on the source site, the name of a field by id;
  - on each site, the field ids by (Pod, name).
  How `save_pod` writes to the database is not modelled; a save is an `Event` that carries the record.
- WordPress multisite state is modelled only as the active site and a stack of switched-from sites. Nothing else is modelled.
- The initial `load_pod` is an input: the loaded Pod, or none.
- PHP's loose tests are modelled on the values the model can hold:
  - `is_numeric`/`(int)` become `Numeric(site)` or `NonNumeric`;
  - `empty()` on a string is the test against "". The string "0", which PHP also treats as empty, is not singled out;
  - `isset` on line 55 and the falsy test on line 83 agree here, because an old name of "" counts as unset.
- The commented-out `add_pod` block (lines 88-93) and the debugging line 141 are not modelled. Neither has any effect.
- `Assign`: PHP creates a new entry when it writes under a name that is not a key. The model makes that write a no-op instead. `CarriedIsName` and the shape lemmas show that such a write never happens when the field names are distinct.
- `ExtractRelationships`: when the Pod has no fields, PHP leaves `$name` undefined. The model uses "". Line 106 then writes nowhere, so the record is the same.
- Lemmas in `SyncProperties` that need it assume the field names are distinct. That is the case when the key of `$pod['fields']` is each field's `name`, as in Pods; the model does not show it.
- `SavedFieldIds`, `FindRemotePod`, `PodOldName`, `FieldOldName`: PHP's loose `!=` is modelled as string inequality. It appears on line 55 (old name of the Pod against its name) and line 110 (old name of a field against its name). Two different numeric strings that PHP compares as equal, such as "1" and "01", are treated as different. Line 83's falsy test and line 110's `empty()` also treat an old name of "0" as unset; the model treats it as set.
- `SyncTargets`, `TargetsSaves`, `SavedRecord`: the API's answers (`Api`) are fixed before the target loop. A `save_pod` on a site is not seen by a later repeat of that site in the target list. This differs from the PHP when an entry repeats. For example, with the targets 3, 3 and no Pod on site 3, the model saves two records without an id. The PHP's second pass finds the Pod created by the first save and adopts its id. The number, order and sites of the saves are still as stated. The content of a save that follows an earlier save on the same site is not. The ids the database would assign at a save are outside the model.
