/** `Pods_Multisite_Sync::sync_pod` as a method: the loops of the PHP code,
    each proved to compute the function of `SyncSpec` that describes it. The
    Pods API is the input `api`; the calls the method makes are returned as a
    trace. */
module MultisiteSync {
  import opened PodData
  import opened SyncSpec

  /** Lines 48-51: drop the Pod id and the id of every field. */
  method StripIds(pod: Pod) returns (stripped: Pod)
    ensures stripped.id.None? && |stripped.fields| == |pod.fields|
    ensures forall i :: 0 <= i < |pod.fields| ==> stripped.fields[i] == pod.fields[i].(id := None)
    ensures stripped == pod.(id := None, fields := stripped.fields)
    ensures stripped == Stripped(pod)
  {
    stripped := pod.(id := None);
    var i := 0;
    while i < |pod.fields|
      invariant 0 <= i <= |pod.fields|
      invariant stripped == pod.(id := None, fields := stripped.fields)
      invariant |stripped.fields| == |pod.fields|
      invariant forall j :: 0 <= j < i ==> stripped.fields[j] == pod.fields[j].(id := None)
      invariant forall j :: i <= j < |pod.fields| ==> stripped.fields[j] == pod.fields[j]
    {
      stripped := stripped.(fields := stripped.fields[i := stripped.fields[i].(id := None)]);
      i := i + 1;
    }
    assert stripped.fields == Stripped(pod).fields;
  }

  /** Lines 59-69: build `$rel`, loading each sister field by id on the
      source site; `name` is the loop variable `$name` afterwards. */
  method ExtractRelationships(fields: seq<Field>, api: Api) returns (rel: seq<Rel>, lookups: seq<Event>, name: string)
    ensures RelState(rel, lookups) == RelsUpTo(fields, |fields|, api)
    ensures name == LastName(fields)
  {
    rel, lookups, name := [], [], "";
    for i := 0 to |fields|
      invariant RelState(rel, lookups) == RelsUpTo(fields, i, api)
      invariant name == LastName(fields[..i])
    {
      var field := fields[i];
      name := field.name;
      if field.kind == "pick" && field.sister.SisterId? && field.pickVal != "" {
        var sister := if field.sister.id in api.sourceFieldNames then Some(api.sourceFieldNames[field.sister.id]) else None;
        lookups := lookups + [LoadFieldById(field.sister.id)];
        rel := rel + [Rel(name, sister, field.pickVal)];
      }
    }
    assert fields[..|fields|] == fields;
  }

  /** Lines 104-120: adopt the remote field ids, and write `pod_id` under the
      name held in `$name` from before each iteration. */
  method AdoptFieldIds(fields: seq<Field>, remote: RemotePod, name: string) returns (adopted: seq<Field>, lastName: string)
    ensures FieldsState(adopted, [], lastName) == AdoptUpTo(fields, |fields|, remote, name)
  {
    adopted, lastName := fields, name;
    for i := 0 to |fields|
      invariant FieldsState(adopted, [], lastName) == AdoptUpTo(fields, i, remote, name)
    {
      var field := fields[i];
      adopted := Assign(adopted, lastName, PodIdAttr(remote.id));
      lastName := field.name;
      var oldName := FieldOldName(field);
      if lastName in remote.fieldIds {
        adopted := Assign(adopted, lastName, IdAttr(remote.fieldIds[lastName]));
      } else if oldName.Some? && oldName.value in remote.fieldIds {
        adopted := Assign(adopted, lastName, IdAttr(remote.fieldIds[oldName.value]));
      }
    }
  }

  /** Lines 123-139: re-resolve each sister field on the active site, whose
      fields by (Pod, name) are `siteFields`. */
  method RelinkSisters(rel: seq<Rel>, fields: seq<Field>, siteFields: map<(string, string), Id>, name: string)
    returns (relinked: seq<Field>, lookups: seq<Event>, lastName: string)
    ensures FieldsState(relinked, lookups, lastName) == RelinkUpTo(rel, |rel|, fields, siteFields, name)
  {
    relinked, lookups, lastName := fields, [], name;
    for i := 0 to |rel|
      invariant FieldsState(relinked, lookups, lastName) == RelinkUpTo(rel, i, fields, siteFields, name)
    {
      var entry := rel[i];
      lastName := entry.key;
      if entry.sister.Some? {
        lookups := lookups + [LoadField(entry.pod, entry.sister.value)];
        var q := (entry.pod, entry.sister.value);
        if q in siteFields {
          relinked := Assign(relinked, lastName, SisterAttr(SisterId(siteFields[q])));
        } else {
          relinked := Assign(relinked, lastName, SisterAttr(NoSister));
        }
      }
    }
  }

  /** Lines 82-85: `load_pod` by name on the active site, whose Pods are
      `pods`, then by the old name when that found nothing. */
  method LoadRemotePod(pod: Pod, pods: map<string, RemotePod>) returns (calls: seq<Event>, remote: Option<RemotePod>)
    ensures Lookup(calls, remote) == FindRemotePod(pod, pods)
  {
    var podOldName := PodOldName(pod);
    calls := [LoadPod(pod.name)];
    remote := if pod.name in pods then Some(pods[pod.name]) else None;
    if remote.None? && podOldName.Some? {
      calls := calls + [LoadPod(podOldName.value)];
      remote := if podOldName.value in pods then Some(pods[podOldName.value]) else None;
    }
  }

  /** Lines 80-143 for one target `site`: switch to it, find the remote Pod,
      adopt its ids, relink the sisters and save. `name` is `$name` before
      and `lastName` after. */
  method SyncToSite(pod: Pod, rel: seq<Rel>, site: int, api: Api, name: string)
    returns (events: seq<Event>, store: Pod, lastName: string)
    ensures Reconciled(events, store, lastName) == ReconcileTarget(pod, rel, site, api, name)
  {
    var podCalls, remote := LoadRemotePod(pod, PodsOn(api, site));
    events := [SwitchTo(site)] + podCalls;
    store := pod;
    lastName := name;
    if remote.Some? {
      store := store.(id := Some(remote.value.id));
      var fields;
      fields, lastName := AdoptFieldIds(store.fields, remote.value, lastName);
      store := store.(fields := fields);
    }
    var fields, sisterLookups;
    fields, sisterLookups, lastName := RelinkSisters(rel, store.fields, FieldsOn(api, site), lastName);
    store := store.(fields := fields);
    events := events + sisterLookups + [SavePod(store)];
  }

  /** `sync_pod` run on the site `siteId` for the Pod that `load_pod` returned
      (`loaded`, None when it found none): the calls it makes, in order. */
  method SyncPod(loaded: Option<Pod>, siteId: int, api: Api) returns (trace: seq<Event>)
    ensures trace == SyncTrace(loaded, siteId, api)
    ensures loaded.None? || !Configured(loaded.value) ==> trace == []
    ensures loaded.Some? && Configured(loaded.value) ==> trace != [] && trace[|trace| - 1] == Restore
  {
    trace := [];
    if loaded.None? || !Configured(loaded.value) {
      return;
    }
    var pod := StripIds(loaded.value);
    var rel, lookups, name := ExtractRelationships(pod.fields, api);
    var targets := pod.syncTo.entries;
    var synced := [];
    for t := 0 to |targets|
      invariant TraceState(synced, name) == TargetsUpTo(pod, rel, siteId, api, targets, t, LastName(pod.fields))
    {
      var site := targets[t];
      if site.NonNumeric? || site.site == siteId {
        continue;
      }
      var events, store;
      events, store, name := SyncToSite(pod, rel, site.site, api, name);
      synced := synced + events;
    }
    trace := lookups + synced + [Restore];
  }
}
