/** What `Pods_Multisite_Sync::sync_pod` does, as functions: one function per
    loop of the method, each giving the state after the first `k` iterations,
    and `SyncTrace`, the sequence of calls the method makes into the Pods API
    and into WordPress. The calls are data (`Event`); what the API answers is
    the input `Api`. */
module SyncSpec {
  import opened PodData

  /** The calls `sync_pod` makes after its initial `load_pod`. */
  datatype Event =
    | LoadFieldById(id: Id)                 // load_field(['id' => ...]) on the source site
    | SwitchTo(site: int)                   // switch_to_blog
    | LoadPod(name: string)                 // load_pod($name, false) on the active site
    | LoadField(pod: string, name: string)  // load_field(['pod' => ..., 'name' => ...]) on the active site
    | SavePod(record: Pod)                  // save_pod
    | Restore                               // restore_current_blog

  /** The answers of the Pods API: on each site, the Pods by name; on the
      source site, the name of each field by id; on each site, the id of
      each field by (Pod name, field name). */
  datatype Api = Api(
    pods: map<int, map<string, RemotePod>>,
    sourceFieldNames: map<Id, string>,
    fieldIds: map<int, map<(string, string), Id>>)

  function PodsOn(api: Api, site: int): map<string, RemotePod>
  {
    if site in api.pods then api.pods[site] else map[]
  }

  function FieldsOn(api: Api, site: int): map<(string, string), Id>
  {
    if site in api.fieldIds then api.fieldIds[site] else map[]
  }

  // ---------------------------------------------------------------- guard

  /** The test of line 44 passes: the option is a non-empty array. */
  predicate Configured(p: Pod)
  {
    p.syncTo.Sites? && p.syncTo.entries != []
  }

  /** The Pod after lines 48-51: no Pod id, no field id. */
  function Stripped(p: Pod): Pod
  {
    p.(id := None, fields := seq(|p.fields|, i requires 0 <= i < |p.fields| => p.fields[i].(id := None)))
  }

  /** `$pod_old_name` (lines 53-57) as the test on line 83 reads it. */
  function PodOldName(p: Pod): Option<string>
  {
    if p.oldName != "" && p.oldName != p.name then Some(p.oldName) else None
  }

  /** `$old_name` of lines 109-112. */
  function FieldOldName(f: Field): Option<string>
  {
    if f.oldName != "" && f.oldName != f.name then Some(f.oldName) else None
  }

  // -------------------------------------------------- relationships, 59-69

  /** The test on line 62. */
  predicate IsRelation(f: Field)
  {
    f.kind == "pick" && f.sister.SisterId? && f.pickVal != ""
  }

  /** One entry of `$rel`: its key, the name of the sister field as
      `load_field` found it on the source site (None when it found nothing),
      and the related Pod (`pick_val`). */
  datatype Rel = Rel(key: string, sister: Option<string>, pod: string)

  function RelOf(f: Field, api: Api): Rel
    requires f.sister.SisterId?
  {
    var id := f.sister.id;
    Rel(f.name, if id in api.sourceFieldNames then Some(api.sourceFieldNames[id]) else None, f.pickVal)
  }

  function Keys(rel: seq<Rel>): seq<string>
  {
    seq(|rel|, j requires 0 <= j < |rel| => rel[j].key)
  }

  datatype RelState = RelState(rel: seq<Rel>, events: seq<Event>)

  /** `$rel` and the `load_field` calls after the first `k` iterations of the
      loop on lines 61-69. */
  function RelsUpTo(fs: seq<Field>, k: nat, api: Api): RelState
    requires k <= |fs|
    decreases k
  {
    if k == 0 then RelState([], [])
    else
      var s := RelsUpTo(fs, k - 1, api);
      var f := fs[k - 1];
      if IsRelation(f) then RelState(s.rel + [RelOf(f, api)], s.events + [LoadFieldById(f.sister.id)])
      else s
  }

  // ------------------------------------------------ field ids, 104-120

  /** The fields of `$store_pod`, the calls made, and the variable `$name`,
      which the loops share. */
  datatype FieldsState = FieldsState(fields: seq<Field>, events: seq<Event>, name: string)

  /** One iteration of the loop on lines 104-120 for the field `f`. Line 106
      writes `pod_id` under `$name` BEFORE line 108 sets `$name` to `f`'s name. */
  function AdoptStep(s: FieldsState, f: Field, remote: RemotePod): FieldsState
  {
    var fields := Assign(s.fields, s.name, PodIdAttr(remote.id));
    var name := f.name;
    var oldName := FieldOldName(f);
    if name in remote.fieldIds then
      FieldsState(Assign(fields, name, IdAttr(remote.fieldIds[name])), s.events, name)
    else if oldName.Some? && oldName.value in remote.fieldIds then
      FieldsState(Assign(fields, name, IdAttr(remote.fieldIds[oldName.value])), s.events, name)
    else
      FieldsState(fields, s.events, name)
  }

  /** The state after the first `k` iterations of the loop on lines 104-120,
      which iterates over the fields `snapshot` that `$store_pod` starts with. */
  function AdoptUpTo(snapshot: seq<Field>, k: nat, remote: RemotePod, name: string): FieldsState
    requires k <= |snapshot|
    decreases k
  {
    if k == 0 then FieldsState(snapshot, [], name)
    else AdoptStep(AdoptUpTo(snapshot, k - 1, remote, name), snapshot[k - 1], remote)
  }

  // ---------------------------------------------- sister ids, 123-139

  /** Lines 131-137: the sister id found on the active site, or `false`. */
  function Relinked(r: Rel, siteFields: map<(string, string), Id>): Sister
    requires r.sister.Some?
  {
    var q := (r.pod, r.sister.value);
    if q in siteFields then SisterId(siteFields[q]) else NoSister
  }

  /** One iteration of the loop on lines 124-139; the loop variable `$name`
      becomes the entry's key whether or not anything is written. */
  function RelinkStep(s: FieldsState, r: Rel, siteFields: map<(string, string), Id>): FieldsState
  {
    if r.sister.Some? then
      FieldsState(Assign(s.fields, r.key, SisterAttr(Relinked(r, siteFields))),
                  s.events + [LoadField(r.pod, r.sister.value)], r.key)
    else
      FieldsState(s.fields, s.events, r.key)
  }

  function RelinkUpTo(rel: seq<Rel>, k: nat, fields: seq<Field>, siteFields: map<(string, string), Id>, name: string): FieldsState
    requires k <= |rel|
    decreases k
  {
    if k == 0 then FieldsState(fields, [], name)
    else RelinkStep(RelinkUpTo(rel, k - 1, fields, siteFields, name), rel[k - 1], siteFields)
  }

  // ------------------------------------------------- one target, 80-143

  datatype Lookup = Lookup(events: seq<Event>, found: Option<RemotePod>)

  /** Lines 82-85: look the Pod up by its name, and by its old name only when
      that found nothing. */
  function FindRemotePod(p: Pod, pods: map<string, RemotePod>): (r: Lookup)
    ensures |r.events| in {1, 2} && r.events[0] == LoadPod(p.name)
    ensures |r.events| == 2 <==> p.name !in pods && PodOldName(p).Some?
    ensures |r.events| == 2 ==> r.events[1] == LoadPod(p.oldName) && p.oldName != p.name
    ensures p.name in pods ==> r.found == Some(pods[p.name])
    ensures r.found.Some? ==> r.found.value in pods.Values
    ensures p.name !in pods && PodOldName(p).Some? ==>
              r.found == if p.oldName in pods then Some(pods[p.oldName]) else None
    ensures r.found.None? <==> p.name !in pods && (PodOldName(p).None? || p.oldName !in pods)
  {
    var first := if p.name in pods then Some(pods[p.name]) else None;
    var oldName := PodOldName(p);
    if first.None? && oldName.Some? then
      Lookup([LoadPod(p.name), LoadPod(oldName.value)],
             if oldName.value in pods then Some(pods[oldName.value]) else None)
    else
      Lookup([LoadPod(p.name)], first)
  }

  datatype Reconciled = Reconciled(events: seq<Event>, store: Pod, name: string)

  /** Lines 80-143 for the target `site`: the calls made (from the switch to
      the save), the record saved, and `$name` afterwards. */
  function ReconcileTarget(p: Pod, rel: seq<Rel>, site: int, api: Api, name: string): Reconciled
  {
    var lookup := FindRemotePod(p, PodsOn(api, site));
    var adopted :=
      if lookup.found.Some? then AdoptUpTo(p.fields, |p.fields|, lookup.found.value, name)
      else FieldsState(p.fields, [], name);
    var relinked := RelinkUpTo(rel, |rel|, adopted.fields, FieldsOn(api, site), adopted.name);
    var store := p.(id := if lookup.found.Some? then Some(lookup.found.value.id) else p.id,
                    fields := relinked.fields);
    Reconciled([SwitchTo(site)] + lookup.events + relinked.events + [SavePod(store)], store, relinked.name)
  }

  // ------------------------------------------------- all targets, 71-146

  /** Line 76: the entry is not numeric, or it is the site the sync runs on. */
  predicate Skipped(t: Target, site: int)
  {
    t.NonNumeric? || t.site == site
  }

  datatype TraceState = TraceState(events: seq<Event>, name: string)

  /** The calls made and `$name` after the first `k` iterations of the loop
      on lines 73-144. */
  function TargetsUpTo(p: Pod, rel: seq<Rel>, site: int, api: Api, targets: seq<Target>, k: nat, name: string): TraceState
    requires k <= |targets|
    decreases k
  {
    if k == 0 then TraceState([], name)
    else
      var s := TargetsUpTo(p, rel, site, api, targets, k - 1, name);
      var t := targets[k - 1];
      if Skipped(t, site) then s
      else
        var r := ReconcileTarget(p, rel, t.site, api, s.name);
        TraceState(s.events + r.events, r.name)
  }

  /** Every call `sync_pod` makes after loading the Pod, which is `loaded`
      (None when `load_pod` found nothing), on the site `site`. */
  function SyncTrace(loaded: Option<Pod>, site: int, api: Api): seq<Event>
  {
    if loaded.None? || !Configured(loaded.value) then []
    else
      var p := Stripped(loaded.value);
      var rels := RelsUpTo(p.fields, |p.fields|, api);
      var entries := p.syncTo.entries;
      var targets := TargetsUpTo(p, rels.rel, site, api, entries, |entries|, LastName(p.fields));
      rels.events + targets.events + [Restore]
  }

  // ------------------------------------------------ reference definitions

  /** The entries of the target list that are not skipped, in order, with
      repetitions. */
  function ValidTargets(targets: seq<Target>, site: int): seq<int>
  {
    if targets == [] then []
    else
      var rest := ValidTargets(targets[1..], site);
      if Skipped(targets[0], site) then rest else [targets[0].site] + rest
  }

  /** The active site of WordPress and its stack of switched-from sites:
      `switch_to_blog` pushes the active site, `restore_current_blog` pops
      one back and does nothing on an empty stack. */
  datatype Ambient = Ambient(current: int, stack: seq<int>)

  function Apply(a: Ambient, e: Event): Ambient
  {
    match e
    case SwitchTo(s) => Ambient(s, a.stack + [a.current])
    case Restore => if a.stack == [] then a else Ambient(a.stack[|a.stack| - 1], a.stack[..|a.stack| - 1])
    case _ => a
  }

  function Replay(events: seq<Event>, a: Ambient): Ambient
    decreases |events|
  {
    if events == [] then a else Replay(events[1..], Apply(a, events[0]))
  }

  /** Each saved record with the site that was active when it was saved. */
  function SavedAt(events: seq<Event>, a: Ambient): seq<(int, Pod)>
    decreases |events|
  {
    if events == [] then []
    else (if events[0].SavePod? then [(a.current, events[0].record)] else []) + SavedAt(events[1..], Apply(a, events[0]))
  }

  /** The sites passed to `switch_to_blog`, in order. */
  function Switches(events: seq<Event>): seq<int>
  {
    if events == [] then []
    else (if events[0].SwitchTo? then [events[0].site] else []) + Switches(events[1..])
  }

  /** The field ids the saved record gets, in priority order: the remote field
      of the same name, else the remote field named by the field's old name,
      else the id the field already had. */
  function AdoptedId(remote: RemotePod, f: Field): Option<Id>
  {
    if f.name in remote.fieldIds then Some(remote.fieldIds[f.name])
    else match FieldOldName(f)
      case Some(o) => if o in remote.fieldIds then Some(remote.fieldIds[o]) else f.id
      case None => f.id
  }

  /** The `sister_id` the saved record gets for the source field `f`: the
      id resolved on `site` when `f` is a relationship whose sister was found
      on the source site, else the `sister_id` it already had. */
  function RelinkedSister(f: Field, api: Api, site: int): Sister
  {
    if IsRelation(f) && f.sister.id in api.sourceFieldNames then
      var q := (f.pickVal, api.sourceFieldNames[f.sister.id]);
      if q in FieldsOn(api, site) then SisterId(FieldsOn(api, site)[q]) else NoSister
    else f.sister
  }
}
