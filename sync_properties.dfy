/** What `sync_pod` guarantees, proved about the functions of `SyncSpec`
    (which `MultisiteSync.SyncPod` is proved to compute). Fields are keyed by
    name in Pods, so the lemmas assume the loaded Pod's field names are
    distinct. */
module SyncProperties {
  import opened PodData
  import opened SyncSpec

  // ------------------------------------------------------------ helpers

  lemma {:induction false} FindSnoc<T>(s: seq<T>, x: T, y: T)
    ensures Find(s + [x], y) == if y in s then Find(s, y) else if y == x then |s| else -1
  {
    if s != [] {
      assert (s + [x])[1..] == s[1..] + [x];
      FindSnoc(s[1..], x, y);
    }
  }

  /** `$rel`: the key of its last entry, which is `$name` after the loop on
      lines 124-139 whenever `$rel` is not empty. */
  function LastKey(rel: seq<Rel>): string
  {
    if rel == [] then "" else rel[|rel| - 1].key
  }

  // ------------------------------------------ relationships, lines 61-69

  /** Field `m` is under its own name in `rel` exactly when it is one of the
      first `k` fields and a relationship, and then with the entry it
      produces. */
  predicate RelIndexed(rel: seq<Rel>, fs: seq<Field>, k: nat, api: Api, m: int)
    requires 0 <= m < |fs|
  {
    var j := Find(Keys(rel), fs[m].name);
    if m < k && IsRelation(fs[m]) then 0 <= j < |rel| && rel[j] == RelOf(fs[m], api) else j < 0
  }

  /** Entry `j` of `rel` is under the name of one of the first `k` fields, a
      relationship, and call `j` loads that field's sister by id. */
  predicate RelCall(rel: seq<Rel>, events: seq<Event>, fs: seq<Field>, k: nat, j: int)
    requires 0 <= j < |rel| && |events| == |rel| && k <= |fs|
  {
    var i := Find(Names(fs), rel[j].key);
    0 <= i < k && IsRelation(fs[i]) && events[j] == LoadFieldById(fs[i].sister.id)
  }

  /** `$rel` and the calls after the first `k` iterations of the loop on
      lines 61-69, field by field. */
  ghost predicate RelsHold(fs: seq<Field>, k: nat, api: Api)
    requires k <= |fs|
  {
    var s := RelsUpTo(fs, k, api);
    && |s.events| == |s.rel|
    && (forall j :: 0 <= j < |s.events| ==> s.events[j].LoadFieldById?)
    && Distinct(Keys(s.rel))
    && (forall j :: 0 <= j < |s.rel| ==> RelCall(s.rel, s.events, fs, k, j))
    && (forall m :: 0 <= m < |fs| ==> RelIndexed(s.rel, fs, k, api, m))
  }

  /** Iteration `k` of the loop on lines 61-69 adds the relationship field
      `fs[k - 1]`. */
  lemma RelsNext(fs: seq<Field>, k: nat, api: Api)
    requires 0 < k <= |fs| && Distinct(Names(fs)) && IsRelation(fs[k - 1])
    requires RelsHold(fs, k - 1, api)
    ensures RelsHold(fs, k, api)
  {
    var s := RelsUpTo(fs, k - 1, api);
    var f := fs[k - 1];
    assert Names(fs)[k - 1] == f.name;
    FindDistinct(Names(fs), k - 1);
    var rel := s.rel + [RelOf(f, api)];
    assert Keys(rel) == Keys(s.rel) + [f.name];
    assert RelIndexed(s.rel, fs, k - 1, api, k - 1);
    assert f.name !in Keys(s.rel);
    forall m | 0 <= m < |fs| ensures RelIndexed(rel, fs, k, api, m) {
      assert RelIndexed(s.rel, fs, k - 1, api, m);
      FindSnoc(Keys(s.rel), f.name, fs[m].name);
      assert Names(fs)[m] == fs[m].name;
      if m != k - 1 {
        assert fs[m].name != f.name;
      }
    }
    var events := s.events + [LoadFieldById(f.sister.id)];
    forall j | 0 <= j < |rel| ensures RelCall(rel, events, fs, k, j) {
      if j < |s.rel| {
        assert RelCall(s.rel, s.events, fs, k - 1, j);
        assert rel[j] == s.rel[j] && events[j] == s.events[j];
      }
    }
    assert RelsUpTo(fs, k, api) == RelState(rel, events);
  }

  /** Iteration `k` of the loop on lines 61-69 skips the field `fs[k - 1]`,
      which is not a relationship. */
  lemma RelsSkip(fs: seq<Field>, k: nat, api: Api)
    requires 0 < k <= |fs| && Distinct(Names(fs)) && !IsRelation(fs[k - 1])
    requires RelsHold(fs, k - 1, api)
    ensures RelsHold(fs, k, api)
  {
    var s := RelsUpTo(fs, k - 1, api);
    forall m | 0 <= m < |fs| ensures RelIndexed(s.rel, fs, k, api, m) {
      assert RelIndexed(s.rel, fs, k - 1, api, m);
    }
    forall j | 0 <= j < |s.rel| ensures RelCall(s.rel, s.events, fs, k, j) {
      assert RelCall(s.rel, s.events, fs, k - 1, j);
    }
  }

  /** `$rel` holds exactly the relationship fields (type `pick`, a sister id
      and a related Pod), one entry per field under its name, with the sister
      as loaded by id from the source site; one `load_field` call is made per
      entry. */
  lemma {:induction false} RelsUpToShape(fs: seq<Field>, k: nat, api: Api)
    requires k <= |fs| && Distinct(Names(fs))
    ensures var s := RelsUpTo(fs, k, api);
      && |s.events| == |s.rel|
      && (forall j :: 0 <= j < |s.events| ==> s.events[j].LoadFieldById?)
      && Distinct(Keys(s.rel))
      && (forall j :: 0 <= j < |s.rel| ==>
            var i := Find(Names(fs), s.rel[j].key);
            0 <= i < k && IsRelation(fs[i]) && s.events[j] == LoadFieldById(fs[i].sister.id))
      && (forall m :: 0 <= m < |fs| ==> RelIndexed(s.rel, fs, k, api, m))
  {
    if k > 0 {
      RelsUpToShape(fs, k - 1, api);
      assert RelsHold(fs, k - 1, api);
      if IsRelation(fs[k - 1]) {
        RelsNext(fs, k, api);
      } else {
        RelsSkip(fs, k, api);
      }
    }
    assert RelsHold(fs, k, api);
    var s := RelsUpTo(fs, k, api);
    forall j | 0 <= j < |s.rel| ensures
      var i := Find(Names(fs), s.rel[j].key);
      0 <= i < k && IsRelation(fs[i]) && s.events[j] == LoadFieldById(fs[i].sister.id)
    {
      assert RelCall(s.rel, s.events, fs, k, j);
    }
  }

  // ---------------------------------------- field ids, lines 104-120

  /** Field `m` after the first `k` iterations of the loop on lines 104-120
      started with `$name == c`. */
  function AdoptedField(snap: seq<Field>, k: nat, remote: RemotePod, c: string, m: int): Field
    requires 0 <= m < |snap|
  {
    snap[m].(
      id := if m < k then AdoptedId(remote, snap[m]) else snap[m].id,
      podId := if m < k - 1 || (0 < k && snap[m].name == c) then Some(remote.id) else snap[m].podId)
  }

  /** How iteration `k` changes `AdoptedField`: entry `i` (the one named by
      `$name`) gets the `pod_id`, entry `k - 1` its id. */
  lemma AdoptedFieldNext(snap: seq<Field>, k: nat, remote: RemotePod, c: string, i: int, m: int)
    requires 0 < k <= |snap| && Distinct(Names(snap)) && 0 <= m < |snap|
    requires c in Names(snap) && i == if k == 1 then Find(Names(snap), c) else k - 2
    ensures var g := if m == i then AdoptedField(snap, k - 1, remote, c, m).(podId := Some(remote.id))
                     else AdoptedField(snap, k - 1, remote, c, m);
      AdoptedField(snap, k, remote, c, m) == if m == k - 1 then g.(id := AdoptedId(remote, snap[k - 1])) else g
  {
    if k == 1 {
      assert Names(snap)[m] == snap[m].name;
      FindDistinct(Names(snap), m);
    }
  }

  /** One iteration of the loop on lines 104-120 when `$name` is the name of
      entry `i` and the iteration's field is entry `k`: entry `i` gets the
      `pod_id`, then entry `k` gets the id `AdoptedId` gives it. */
  lemma AdoptStepAt(s0: FieldsState, f: Field, remote: RemotePod, i: int, k: int)
    requires Distinct(Names(s0.fields)) && 0 <= i < |s0.fields| && 0 <= k < |s0.fields|
    requires s0.fields[i].name == s0.name && s0.fields[k].name == f.name && s0.fields[k].id == f.id
    ensures var g := s0.fields[i := s0.fields[i].(podId := Some(remote.id))];
      AdoptStep(s0, f, remote) == FieldsState(g[k := g[k].(id := AdoptedId(remote, f))], s0.events, f.name)
  {
    AssignAt(s0.fields, i, PodIdAttr(remote.id));
    var g := s0.fields[i := s0.fields[i].(podId := Some(remote.id))];
    assert Names(g)[k] == f.name;
    var id := if f.name in remote.fieldIds then remote.fieldIds[f.name]
              else if FieldOldName(f).Some? && FieldOldName(f).value in remote.fieldIds then remote.fieldIds[FieldOldName(f).value]
              else 1;
    AssignAt(g, k, IdAttr(id));
    if AdoptedId(remote, f) == f.id {
      assert g[k := g[k].(id := AdoptedId(remote, f))] == g;
    }
  }

  /** The loop on lines 104-120 makes no call, and leaves `$name` at the
      last field it visited. */
  lemma {:induction false} AdoptUpToName(snap: seq<Field>, k: nat, remote: RemotePod, c: string)
    requires k <= |snap|
    ensures var s := AdoptUpTo(snap, k, remote, c);
      s.events == [] && s.name == (if k == 0 then c else snap[k - 1].name)
  {
    if k > 0 {
      AdoptUpToName(snap, k - 1, remote, c);
    }
  }

  /** The state after the first `k` iterations of the loop on lines 104-120
      started with `$name == c`, field by field. */
  ghost predicate AdoptHolds(snap: seq<Field>, k: nat, remote: RemotePod, c: string)
    requires k <= |snap|
  {
    var s := AdoptUpTo(snap, k, remote, c);
    && s.events == []
    && s.name == (if k == 0 then c else snap[k - 1].name)
    && |s.fields| == |snap| && Names(s.fields) == Names(snap)
    && forall m :: 0 <= m < |snap| ==> s.fields[m] == AdoptedField(snap, k, remote, c, m)
  }

  /** Iteration `k` of the loop on lines 104-120. */
  lemma AdoptNext(snap: seq<Field>, k: nat, remote: RemotePod, c: string)
    requires 0 < k <= |snap| && Distinct(Names(snap)) && c in Names(snap)
    requires AdoptHolds(snap, k - 1, remote, c)
    ensures AdoptHolds(snap, k, remote, c)
  {
    var s0 := AdoptUpTo(snap, k - 1, remote, c);
    AdoptStepHolds(snap, k, remote, c, s0);
    assert AdoptUpTo(snap, k, remote, c) == AdoptStep(s0, snap[k - 1], remote);
  }

  /** Iteration `k` of the loop on lines 104-120, from the state `s0` the
      first `k - 1` iterations leave. */
  lemma AdoptStepHolds(snap: seq<Field>, k: nat, remote: RemotePod, c: string, s0: FieldsState)
    requires 0 < k <= |snap| && Distinct(Names(snap)) && c in Names(snap)
    requires s0.events == [] && s0.name == (if k == 1 then c else snap[k - 2].name)
    requires |s0.fields| == |snap| && Names(s0.fields) == Names(snap)
    requires forall m :: 0 <= m < |snap| ==> s0.fields[m] == AdoptedField(snap, k - 1, remote, c, m)
    ensures var s := AdoptStep(s0, snap[k - 1], remote);
      && s.events == []
      && s.name == snap[k - 1].name
      && |s.fields| == |snap| && Names(s.fields) == Names(snap)
      && forall m :: 0 <= m < |snap| ==> s.fields[m] == AdoptedField(snap, k, remote, c, m)
  {
    var f := snap[k - 1];
    var i1 := if k == 1 then Find(Names(snap), c) else k - 2;
    assert Names(s0.fields)[i1] == Names(snap)[i1];
    assert Names(s0.fields)[k - 1] == Names(snap)[k - 1];
    assert s0.fields[k - 1] == AdoptedField(snap, k - 1, remote, c, k - 1);
    AdoptStepAt(s0, f, remote, i1, k - 1);
    AdoptFieldsNext(snap, k, remote, c, i1, s0.fields);
  }

  /** The fields after iteration `k` of the loop on lines 104-120, from those
      before it, `fs`. */
  lemma AdoptFieldsNext(snap: seq<Field>, k: nat, remote: RemotePod, c: string, i1: int, fs: seq<Field>)
    requires 0 < k <= |snap| && Distinct(Names(snap)) && c in Names(snap)
    requires i1 == if k == 1 then Find(Names(snap), c) else k - 2
    requires |fs| == |snap| && forall m :: 0 <= m < |snap| ==> fs[m] == AdoptedField(snap, k - 1, remote, c, m)
    ensures var g := fs[i1 := fs[i1].(podId := Some(remote.id))];
      var fs' := g[k - 1 := g[k - 1].(id := AdoptedId(remote, snap[k - 1]))];
      && Names(fs') == Names(snap)
      && forall m :: 0 <= m < |snap| ==> fs'[m] == AdoptedField(snap, k, remote, c, m)
  {
    var g := fs[i1 := fs[i1].(podId := Some(remote.id))];
    var fs' := g[k - 1 := g[k - 1].(id := AdoptedId(remote, snap[k - 1]))];
    forall m | 0 <= m < |snap| ensures fs'[m] == AdoptedField(snap, k, remote, c, m) && fs'[m].name == snap[m].name {
      AdoptedFieldNext(snap, k, remote, c, i1, m);
    }
    assert Names(fs') == Names(snap);
  }

  /** After the first `k` iterations of the loop on lines 104-120 started
      with `$name == c`: field `m < k` has the id `AdoptedId` gives it, and
      the `pod_id` of the remote Pod lands on fields `0 .. k-2` and on the
      field called `c` (line 106 uses the name of the previous iteration). */
  lemma {:induction false} AdoptUpToShape(snap: seq<Field>, k: nat, remote: RemotePod, c: string)
    requires k <= |snap| && Distinct(Names(snap))
    requires 0 < k ==> c in Names(snap)
    ensures var s := AdoptUpTo(snap, k, remote, c);
      && s.events == []
      && s.name == (if k == 0 then c else snap[k - 1].name)
      && |s.fields| == |snap| && Names(s.fields) == Names(snap)
      && forall m :: 0 <= m < |snap| ==> s.fields[m] == AdoptedField(snap, k, remote, c, m)
  {
    if k == 0 {
      var s := AdoptUpTo(snap, k, remote, c);
      forall m | 0 <= m < |snap| ensures s.fields[m] == AdoptedField(snap, k, remote, c, m) {
      }
    } else {
      AdoptUpToShape(snap, k - 1, remote, c);
      assert AdoptHolds(snap, k - 1, remote, c);
      AdoptNext(snap, k, remote, c);
      assert AdoptHolds(snap, k, remote, c);
    }
  }

  // ---------------------------------------- sister ids, lines 123-139

  /** Field `m` after the first `k` iterations of the loop on lines 124-139. */
  function RelinkedField(rel: seq<Rel>, k: nat, fs0: seq<Field>, siteFields: map<(string, string), Id>, m: int): Field
    requires 0 <= m < |fs0|
  {
    var j := Find(Keys(rel), fs0[m].name);
    if 0 <= j < k && j < |rel| && rel[j].sister.Some? then fs0[m].(sister := Relinked(rel[j], siteFields))
    else fs0[m]
  }

  /** How iteration `k` changes `RelinkedField`: only the entry named by the
      key of `rel[k - 1]` can change. */
  lemma RelinkedFieldNext(rel: seq<Rel>, k: nat, fs0: seq<Field>, siteFields: map<(string, string), Id>, i: int, m: int)
    requires 0 < k <= |rel| && Distinct(Names(fs0)) && Distinct(Keys(rel)) && 0 <= m < |fs0|
    requires 0 <= i < |fs0| && fs0[i].name == rel[k - 1].key
    ensures RelinkedField(rel, k, fs0, siteFields, m) ==
      if m == i && rel[k - 1].sister.Some? then RelinkedField(rel, k - 1, fs0, siteFields, m).(sister := Relinked(rel[k - 1], siteFields))
      else RelinkedField(rel, k - 1, fs0, siteFields, m)
  {
    assert Keys(rel)[k - 1] == rel[k - 1].key;
    FindDistinct(Keys(rel), k - 1);
    assert Names(fs0)[m] == fs0[m].name;
    assert Names(fs0)[i] == fs0[i].name;
    if m != i {
      assert fs0[m].name != rel[k - 1].key;
    }
  }

  /** One iteration of the loop on lines 124-139 when the entry's key is the
      name of field `i`. */
  lemma RelinkStepAt(s0: FieldsState, r: Rel, siteFields: map<(string, string), Id>, i: int)
    requires Distinct(Names(s0.fields)) && 0 <= i < |s0.fields| && s0.fields[i].name == r.key
    ensures var s := RelinkStep(s0, r, siteFields);
      && s.name == r.key
      && s.events == s0.events + (if r.sister.Some? then [LoadField(r.pod, r.sister.value)] else [])
      && s.fields == if r.sister.Some? then s0.fields[i := s0.fields[i].(sister := Relinked(r, siteFields))] else s0.fields
  {
    if r.sister.Some? {
      AssignAt(s0.fields, i, SisterAttr(Relinked(r, siteFields)));
    }
  }

  /** The calls and `$name` after the first `k` iterations of the loop on
      lines 124-139: only `load_field` calls, and `$name` is the last key seen. */
  lemma {:induction false} RelinkUpToCalls(rel: seq<Rel>, k: nat, fs0: seq<Field>, siteFields: map<(string, string), Id>, c: string)
    requires k <= |rel|
    ensures var s := RelinkUpTo(rel, k, fs0, siteFields, c);
      && s.name == (if k == 0 then c else rel[k - 1].key)
      && forall i :: 0 <= i < |s.events| ==> s.events[i].LoadField?
  {
    if k > 0 {
      RelinkUpToCalls(rel, k - 1, fs0, siteFields, c);
    }
  }

  /** The fields after the first `k` iterations of the loop on lines
      124-139, field by field. */
  ghost predicate RelinkHolds(rel: seq<Rel>, k: nat, fs0: seq<Field>, siteFields: map<(string, string), Id>, c: string)
    requires k <= |rel|
  {
    var s := RelinkUpTo(rel, k, fs0, siteFields, c);
    && |s.fields| == |fs0| && Names(s.fields) == Names(fs0)
    && forall m :: 0 <= m < |fs0| ==> s.fields[m] == RelinkedField(rel, k, fs0, siteFields, m)
  }

  /** Iteration `k` of the loop on lines 124-139. */
  lemma RelinkNext(rel: seq<Rel>, k: nat, fs0: seq<Field>, siteFields: map<(string, string), Id>, c: string)
    requires 0 < k <= |rel| && Distinct(Names(fs0)) && Distinct(Keys(rel))
    requires rel[k - 1].key in Names(fs0)
    requires RelinkHolds(rel, k - 1, fs0, siteFields, c)
    ensures RelinkHolds(rel, k, fs0, siteFields, c)
  {
    var s := RelinkUpTo(rel, k, fs0, siteFields, c);
    var s0 := RelinkUpTo(rel, k - 1, fs0, siteFields, c);
    var r := rel[k - 1];
    var i := Find(Names(fs0), r.key);
    assert Names(s0.fields)[i] == Names(fs0)[i];
    RelinkStepAt(s0, r, siteFields, i);
    forall m | 0 <= m < |fs0| ensures s.fields[m] == RelinkedField(rel, k, fs0, siteFields, m) && s.fields[m].name == fs0[m].name {
      assert s0.fields[m] == RelinkedField(rel, k - 1, fs0, siteFields, m);
      RelinkedFieldNext(rel, k, fs0, siteFields, i, m);
    }
    assert Names(s.fields) == Names(fs0);
  }

  /** After the first `k` iterations of the loop on lines 124-139: the field
      whose name is the key of entry `j < k` of `$rel` has the sister id found
      on the active site (or `false`) when the source sister was found, and
      every other field is as it was. */
  lemma {:induction false} RelinkUpToShape(rel: seq<Rel>, k: nat, fs0: seq<Field>, siteFields: map<(string, string), Id>, c: string)
    requires k <= |rel| && Distinct(Names(fs0)) && Distinct(Keys(rel))
    requires forall j :: 0 <= j < |rel| ==> rel[j].key in Names(fs0)
    ensures var s := RelinkUpTo(rel, k, fs0, siteFields, c);
      && |s.fields| == |fs0| && Names(s.fields) == Names(fs0)
      && forall m :: 0 <= m < |fs0| ==> s.fields[m] == RelinkedField(rel, k, fs0, siteFields, m)
  {
    if k == 0 {
      var s := RelinkUpTo(rel, k, fs0, siteFields, c);
      forall m | 0 <= m < |fs0| ensures s.fields[m] == RelinkedField(rel, k, fs0, siteFields, m) {
      }
    } else {
      RelinkUpToShape(rel, k - 1, fs0, siteFields, c);
      assert RelinkHolds(rel, k - 1, fs0, siteFields, c);
      RelinkNext(rel, k, fs0, siteFields, c);
      assert RelinkHolds(rel, k, fs0, siteFields, c);
    }
  }

  // ------------------------------------------------- one target, 80-143

  /** Lines 48-51 keep every field's name. */
  lemma StrippedNames(src: Pod)
    ensures |Stripped(src).fields| == |src.fields|
    ensures Names(Stripped(src).fields) == Names(src.fields)
    ensures LastName(Stripped(src).fields) == LastName(src.fields)
  {
    assert Names(Stripped(src).fields) == Names(src.fields);
  }

  /** `$rel` as built from the Pod `src`. */
  function SourceRels(src: Pod, api: Api): seq<Rel>
  {
    var p := Stripped(src);
    RelsUpTo(p.fields, |p.fields|, api).rel
  }

  /** Field `m` of the record saved for one target, when the remote Pod
      `found` was looked up and `$name` was `c` on entry. */
  function SavedField(src: Pod, api: Api, site: int, found: Option<RemotePod>, c: string, m: int): Field
    requires 0 <= m < |src.fields|
  {
    var n := |src.fields|;
    src.fields[m].(
      id := if found.Some? then AdoptedId(found.value, src.fields[m].(id := None)) else None,
      podId := if found.Some? && (m < n - 1 || src.fields[m].name == c) then Some(found.value.id) else src.fields[m].podId,
      sister := RelinkedSister(src.fields[m], api, site))
  }

  /** The loop on lines 104-120, field by field, over the stripped fields. */
  lemma AdoptedFieldAt(src: Pod, remote: RemotePod, c: string, m: int)
    requires 0 <= m < |src.fields|
    ensures var n := |src.fields|;
      AdoptedField(Stripped(src).fields, n, remote, c, m) == src.fields[m].(
        id := AdoptedId(remote, src.fields[m].(id := None)),
        podId := if m < n - 1 || src.fields[m].name == c then Some(remote.id) else src.fields[m].podId)
  {
    assert Stripped(src).fields[m] == src.fields[m].(id := None);
  }

  /** The loop on lines 124-139, field by field: a field list `fs0` that
      agrees with the source Pod on names and sister ids gets the sister id
      `RelinkedSister` gives. */
  lemma RelinkedSisterAt(src: Pod, api: Api, site: int, fs0: seq<Field>, m: int)
    requires Distinct(Names(src.fields)) && 0 <= m < |src.fields| && |fs0| == |src.fields|
    requires fs0[m].name == src.fields[m].name && fs0[m].sister == src.fields[m].sister
    ensures var rel := SourceRels(src, api);
      RelinkedField(rel, |rel|, fs0, FieldsOn(api, site), m) == fs0[m].(sister := RelinkedSister(src.fields[m], api, site))
  {
    var p := Stripped(src);
    StrippedNames(src);
    RelsUpToShape(p.fields, |p.fields|, api);
    assert RelIndexed(SourceRels(src, api), p.fields, |p.fields|, api, m);
    assert p.fields[m] == src.fields[m].(id := None);
  }

  /** The fields of the record saved for one target: in each, the id,
      `pod_id` and `sister_id` change as `SavedField` says, and nothing else:
      - the id is adopted as `AdoptedId` says when the remote Pod was found,
        and is unset otherwise;
      - `pod_id` becomes the remote Pod's id on every field but the last, and
        on the field called `c` (the value of `$name` on entry); every other
        field keeps the source site's `pod_id`;
      - `sister_id` is re-resolved on the target as `RelinkedSister` says. */
  lemma StoreFields(src: Pod, site: int, api: Api, c: string)
    requires Distinct(Names(src.fields))
    requires c in Names(src.fields) || src.fields == []
    ensures var r := ReconcileTarget(Stripped(src), SourceRels(src, api), site, api, c);
      var found := FindRemotePod(src, PodsOn(api, site)).found;
      && |r.store.fields| == |src.fields|
      && (forall m :: 0 <= m < |src.fields| ==> r.store.fields[m] == SavedField(src, api, site, found, c, m))
  {
    var p := Stripped(src);
    var n := |src.fields|;
    StrippedNames(src);
    var rel := SourceRels(src, api);
    RelsUpToShape(p.fields, n, api);
    var lookup := FindRemotePod(p, PodsOn(api, site));
    assert lookup == FindRemotePod(src, PodsOn(api, site));
    var adopted :=
      if lookup.found.Some? then AdoptUpTo(p.fields, n, lookup.found.value, c)
      else FieldsState(p.fields, [], c);
    if lookup.found.Some? {
      AdoptUpToShape(p.fields, n, lookup.found.value, c);
    }
    assert Names(adopted.fields) == Names(p.fields);
    forall j | 0 <= j < |rel| ensures rel[j].key in Names(adopted.fields) {
      assert 0 <= Find(Names(p.fields), rel[j].key);
    }
    var sf := FieldsOn(api, site);
    RelinkUpToShape(rel, |rel|, adopted.fields, sf, adopted.name);
    var relinked := RelinkUpTo(rel, |rel|, adopted.fields, sf, adopted.name);
    forall m | 0 <= m < n ensures relinked.fields[m] == SavedField(src, api, site, lookup.found, c, m) {
      assert Names(adopted.fields)[m] == Names(p.fields)[m];
      if lookup.found.Some? {
        assert adopted.fields[m] == AdoptedField(p.fields, n, lookup.found.value, c, m);
        AdoptedFieldAt(src, lookup.found.value, c, m);
      } else {
        assert adopted.fields[m] == src.fields[m].(id := None);
      }
      RelinkedSisterAt(src, api, site, adopted.fields, m);
    }
    assert ReconcileTarget(p, rel, site, api, c).store.fields == relinked.fields;
  }

  /** The record saved for one target: every attribute of the source Pod is
      kept except the Pod id, which is the remote Pod's id when one was found
      and unset otherwise, and the fields, as `StoreFields` says. Afterwards
      `$name` is the last key of `$rel`, or the last field's name, or still
      `c`. */
  lemma StoreShape(src: Pod, site: int, api: Api, c: string)
    ensures var rel := SourceRels(src, api);
      var r := ReconcileTarget(Stripped(src), rel, site, api, c);
      var found := FindRemotePod(src, PodsOn(api, site)).found;
      && r.store == src.(id := r.store.id, fields := r.store.fields)
      && r.store.id == (if found.Some? then Some(found.value.id) else None)
      && r.name == (if rel != [] then LastKey(rel) else if found.Some? && src.fields != [] then LastName(src.fields) else c)
  {
    var p := Stripped(src);
    var n := |src.fields|;
    StrippedNames(src);
    var rel := SourceRels(src, api);
    var lookup := FindRemotePod(p, PodsOn(api, site));
    assert lookup == FindRemotePod(src, PodsOn(api, site));
    var adopted :=
      if lookup.found.Some? then AdoptUpTo(p.fields, n, lookup.found.value, c)
      else FieldsState(p.fields, [], c);
    if lookup.found.Some? {
      AdoptUpToName(p.fields, n, lookup.found.value, c);
    }
    RelinkUpToCalls(rel, |rel|, adopted.fields, FieldsOn(api, site), adopted.name);
  }

  // ---------------------------------------------------- the trace as a whole

  /** Only API reads: no switch, no save, no restore. */
  predicate Quiet(events: seq<Event>)
  {
    forall i :: 0 <= i < |events| ==> events[i].LoadPod? || events[i].LoadField? || events[i].LoadFieldById?
  }

  lemma {:induction false} QuietEffects(events: seq<Event>, a: Ambient)
    requires Quiet(events)
    ensures Switches(events) == [] && Replay(events, a) == a && SavedAt(events, a) == []
  {
    if events != [] {
      QuietEffects(events[1..], a);
    }
  }

  lemma {:induction false} SwitchesAppend(x: seq<Event>, y: seq<Event>)
    ensures Switches(x + y) == Switches(x) + Switches(y)
  {
    if x == [] {
      assert x + y == y;
    } else {
      var head := if x[0].SwitchTo? then [x[0].site] else [];
      assert (x + y)[0] == x[0] && (x + y)[1..] == x[1..] + y;
      SwitchesAppend(x[1..], y);
      assert Switches(x + y) == head + Switches(x[1..] + y);
      assert Switches(x) == head + Switches(x[1..]);
    }
  }

  lemma {:induction false} ReplayAppend(x: seq<Event>, y: seq<Event>, a: Ambient)
    ensures Replay(x + y, a) == Replay(y, Replay(x, a))
  {
    if x == [] {
      assert x + y == y;
    } else {
      assert (x + y)[0] == x[0] && (x + y)[1..] == x[1..] + y;
      ReplayAppend(x[1..], y, Apply(a, x[0]));
    }
  }

  lemma {:induction false} SavedAtAppend(x: seq<Event>, y: seq<Event>, a: Ambient)
    ensures SavedAt(x + y, a) == SavedAt(x, a) + SavedAt(y, Replay(x, a))
  {
    if x == [] {
      assert x + y == y;
    } else {
      var head := if x[0].SavePod? then [(a.current, x[0].record)] else [];
      assert (x + y)[0] == x[0] && (x + y)[1..] == x[1..] + y;
      SavedAtAppend(x[1..], y, Apply(a, x[0]));
      assert SavedAt(x + y, a) == head + SavedAt(x[1..] + y, Apply(a, x[0]));
      assert SavedAt(x, a) == head + SavedAt(x[1..], Apply(a, x[0]));
    }
  }

  /** The switches, the ambient site and the saves of two traces, one after
      the other. */
  lemma TraceAppend(x: seq<Event>, y: seq<Event>, a: Ambient)
    ensures Switches(x + y) == Switches(x) + Switches(y)
    ensures Replay(x + y, a) == Replay(y, Replay(x, a))
    ensures SavedAt(x + y, a) == SavedAt(x, a) + SavedAt(y, Replay(x, a))
  {
    SwitchesAppend(x, y);
    ReplayAppend(x, y, a);
    SavedAtAppend(x, y, a);
  }

  lemma {:induction false} ValidTargetsSnoc(ts: seq<Target>, t: Target, site: int)
    ensures ValidTargets(ts + [t], site) == ValidTargets(ts, site) + (if Skipped(t, site) then [] else [t.site])
  {
    if ts != [] {
      assert (ts + [t])[1..] == ts[1..] + [t];
      ValidTargetsSnoc(ts[1..], t, site);
    }
  }

  lemma ValidTargetsPrefix(ts: seq<Target>, k: nat, site: int)
    requires 0 < k <= |ts|
    ensures ValidTargets(ts[..k], site) == ValidTargets(ts[..k - 1], site) + (if Skipped(ts[k - 1], site) then [] else [ts[k - 1].site])
  {
    assert ts[..k] == ts[..k - 1] + [ts[k - 1]];
    ValidTargetsSnoc(ts[..k - 1], ts[k - 1], site);
  }

  /** The value of `$name` when the `j`-th processed target starts: the last
      field's name for the first one, the last key of `$rel` afterwards
      (unless `$rel` is empty). */
  function CarriedAt(src: Pod, api: Api, j: nat): string
  {
    var rel := SourceRels(src, api);
    if j == 0 || rel == [] then LastName(src.fields) else LastKey(rel)
  }

  /** The record saved for the `j`-th processed target, `site`. */
  function StoreFor(src: Pod, api: Api, site: int, j: nat): Pod
  {
    ReconcileTarget(Stripped(src), SourceRels(src, api), site, api, CarriedAt(src, api, j)).store
  }

  lemma CarriedIsName(src: Pod, api: Api, j: nat)
    requires Distinct(Names(src.fields))
    ensures CarriedAt(src, api, j) in Names(src.fields) || src.fields == []
  {
    var p := Stripped(src);
    StrippedNames(src);
    RelsUpToShape(p.fields, |p.fields|, api);
    var rel := SourceRels(src, api);
    if src.fields != [] {
      assert Names(src.fields)[|src.fields| - 1] == LastName(src.fields);
    }
    if rel != [] {
      assert 0 <= Find(Names(p.fields), rel[|rel| - 1].key);
    }
  }

  /** A switch to `site`, API reads only, and a save of `store`. */
  lemma Bracketed(site: int, middle: seq<Event>, store: Pod, a: Ambient)
    requires Quiet(middle)
    ensures var events := [SwitchTo(site)] + middle + [SavePod(store)];
      && Switches(events) == [site]
      && Replay(events, a) == Ambient(site, a.stack + [a.current])
      && SavedAt(events, a) == [(site, store)]
      && Restore !in events
  {
    var a1 := Apply(a, SwitchTo(site));
    QuietEffects(middle, a1);
    TraceAppend([SwitchTo(site)], middle, a);
    TraceAppend([SwitchTo(site)] + middle, [SavePod(store)], a);
    assert Switches([SavePod(store)]) == [];
    assert Replay([SwitchTo(site)], a) == a1;
    assert SavedAt([SwitchTo(site)], a) == [];
    assert SavedAt([SavePod(store)], a1) == [(site, store)];
    assert Restore !in [SwitchTo(site)] + middle + [SavePod(store)] by {
      assert forall i :: 0 <= i < |middle| ==> middle[i] != Restore;
    }
  }

  /** Lines 80-143 for one target, in order: the `switch_to_blog` of line 80
      first, then only API reads (lines 82-84 and 131), and the `save_pod` of
      line 143 last. */
  lemma ReconcileOrder(p: Pod, rel: seq<Rel>, site: int, api: Api, c: string)
    ensures var r := ReconcileTarget(p, rel, site, api, c);
      && |r.events| >= 2
      && r.events[0] == SwitchTo(site)
      && r.events[|r.events| - 1] == SavePod(r.store)
      && Quiet(r.events[1..|r.events| - 1])
  {
    var lookup := FindRemotePod(p, PodsOn(api, site));
    var adopted :=
      if lookup.found.Some? then AdoptUpTo(p.fields, |p.fields|, lookup.found.value, c)
      else FieldsState(p.fields, [], c);
    RelinkUpToCalls(rel, |rel|, adopted.fields, FieldsOn(api, site), adopted.name);
    var r := ReconcileTarget(p, rel, site, api, c);
    var middle := lookup.events + RelinkUpTo(rel, |rel|, adopted.fields, FieldsOn(api, site), adopted.name).events;
    assert Quiet(middle);
    assert r.events == [SwitchTo(site)] + middle + [SavePod(r.store)];
    assert r.events[1..|r.events| - 1] == middle;
  }

  /** Lines 80-143 for one target: one `switch_to_blog`, to `site`, first;
      then only API reads; one save, last, on `site`; no restore. */
  lemma ReconcileEvents(p: Pod, rel: seq<Rel>, site: int, api: Api, c: string, a: Ambient)
    ensures var r := ReconcileTarget(p, rel, site, api, c);
      && Switches(r.events) == [site]
      && Replay(r.events, a) == Ambient(site, a.stack + [a.current])
      && SavedAt(r.events, a) == [(site, r.store)]
      && Restore !in r.events
      && |r.events| >= 2
      && r.events[0] == SwitchTo(site)
      && r.events[|r.events| - 1] == SavePod(r.store)
      && Quiet(r.events[1..|r.events| - 1])
  {
    var r := ReconcileTarget(p, rel, site, api, c);
    ReconcileOrder(p, rel, site, api, c);
    var middle := r.events[1..|r.events| - 1];
    assert r.events == [SwitchTo(site)] + middle + [SavePod(r.store)];
    Bracketed(site, middle, r.store, a);
  }

  /** WordPress's active site and stack after switching from `site` to each
      of `vt` in turn, with no restore in between. */
  function Frontier(site: int, vt: seq<int>): Ambient
  {
    if vt == [] then Ambient(site, []) else Ambient(vt[|vt| - 1], [site] + vt[..|vt| - 1])
  }

  /** The calls for one more target `t`, appended to those for the targets
      `vt0`. */
  lemma AppendTarget(e0: seq<Event>, e1: seq<Event>, site: int, vt0: seq<int>, t: int)
    requires Switches(e0) == vt0 && Restore !in e0 && Replay(e0, Ambient(site, [])) == Frontier(site, vt0)
    requires Switches(e1) == [t] && Restore !in e1
    requires var f := Frontier(site, vt0); Replay(e1, f) == Ambient(t, f.stack + [f.current])
    ensures Switches(e0 + e1) == vt0 + [t] && Restore !in e0 + e1
    ensures Replay(e0 + e1, Ambient(site, [])) == Frontier(site, vt0 + [t])
  {
    TraceAppend(e0, e1, Ambient(site, []));
    var vt := vt0 + [t];
    if vt0 != [] {
      assert [site] + vt0[..|vt0| - 1] + [vt0[|vt0| - 1]] == [site] + vt[..|vt| - 1];
    }
  }

  /** The saves of calls for one more target, appended to those before. */
  lemma AppendSave(e0: seq<Event>, e1: seq<Event>, t: int, store: Pod, a: Ambient)
    requires SavedAt(e1, Replay(e0, a)) == [(t, store)]
    ensures SavedAt(e0 + e1, a) == SavedAt(e0, a) + [(t, store)]
  {
    TraceAppend(e0, e1, a);
  }

  /** The switches after the first `k` entries of the target list. */
  ghost predicate SwitchesHold(p: Pod, rel: seq<Rel>, site: int, api: Api, ts: seq<Target>, k: nat, c: string)
    requires k <= |ts|
  {
    var s := TargetsUpTo(p, rel, site, api, ts, k, c);
    var vt := ValidTargets(ts[..k], site);
    && Switches(s.events) == vt
    && Restore !in s.events
    && Replay(s.events, Ambient(site, [])) == Frontier(site, vt)
  }

  /** Entry `k - 1` of the target list is processed. */
  lemma SwitchesNext(p: Pod, rel: seq<Rel>, site: int, api: Api, ts: seq<Target>, k: nat, c: string)
    requires 0 < k <= |ts| && !Skipped(ts[k - 1], site)
    requires SwitchesHold(p, rel, site, api, ts, k - 1, c)
    ensures SwitchesHold(p, rel, site, api, ts, k, c)
  {
    var s0 := TargetsUpTo(p, rel, site, api, ts, k - 1, c);
    var vt0 := ValidTargets(ts[..k - 1], site);
    var t := ts[k - 1];
    ValidTargetsPrefix(ts, k, site);
    var r := ReconcileTarget(p, rel, t.site, api, s0.name);
    ReconcileEvents(p, rel, t.site, api, s0.name, Frontier(site, vt0));
    AppendTarget(s0.events, r.events, site, vt0, t.site);
  }

  /** Entry `k - 1` of the target list is skipped. */
  lemma SwitchesSkip(p: Pod, rel: seq<Rel>, site: int, api: Api, ts: seq<Target>, k: nat, c: string)
    requires 0 < k <= |ts| && Skipped(ts[k - 1], site)
    requires SwitchesHold(p, rel, site, api, ts, k - 1, c)
    ensures SwitchesHold(p, rel, site, api, ts, k, c)
  {
    ValidTargetsPrefix(ts, k, site);
  }

  /** After the first `k` entries of the target list: one switch per entry
      that is not skipped, in order and with repetitions, and never a
      restore, so the active site left is the last target switched to, with
      every earlier one still on the stack. */
  lemma {:induction false} TargetsSwitches(p: Pod, rel: seq<Rel>, site: int, api: Api, ts: seq<Target>, k: nat, c: string)
    requires k <= |ts|
    ensures var s := TargetsUpTo(p, rel, site, api, ts, k, c);
      var vt := ValidTargets(ts[..k], site);
      && Switches(s.events) == vt
      && Restore !in s.events
      && Replay(s.events, Ambient(site, [])) == Frontier(site, vt)
  {
    if k == 0 {
      assert ts[..0] == [];
    } else {
      TargetsSwitches(p, rel, site, api, ts, k - 1, c);
      assert SwitchesHold(p, rel, site, api, ts, k - 1, c);
      if Skipped(ts[k - 1], site) {
        SwitchesSkip(p, rel, site, api, ts, k, c);
      } else {
        SwitchesNext(p, rel, site, api, ts, k, c);
      }
      assert SwitchesHold(p, rel, site, api, ts, k, c);
    }
  }

  /** `$name` settles: whatever the target, one pass of lines 80-143 turns
      `c` into `c2`, and leaves `c2` as it is. */
  ghost predicate NameSettles(p: Pod, rel: seq<Rel>, api: Api, c: string, c2: string)
  {
    forall t: int :: ReconcileTarget(p, rel, t, api, c).name == c2 && ReconcileTarget(p, rel, t, api, c2).name == c2
  }

  /** One more save, on the next target `t`. */
  lemma SavesStep(p: Pod, rel: seq<Rel>, api: Api, c: string, c2: string, saved0: seq<(int, Pod)>, vt0: seq<int>, t: int, store: Pod)
    requires |saved0| == |vt0|
    requires forall j :: 0 <= j < |vt0| ==> saved0[j] == (vt0[j], ReconcileTarget(p, rel, vt0[j], api, if j == 0 then c else c2).store)
    requires store == ReconcileTarget(p, rel, t, api, if |vt0| == 0 then c else c2).store
    ensures var saved := saved0 + [(t, store)];
      var vt := vt0 + [t];
      && |saved| == |vt|
      && forall j :: 0 <= j < |vt| ==> saved[j] == (vt[j], ReconcileTarget(p, rel, vt[j], api, if j == 0 then c else c2).store)
  {
    var saved := saved0 + [(t, store)];
    var vt := vt0 + [t];
    forall j | 0 <= j < |vt| ensures saved[j] == (vt[j], ReconcileTarget(p, rel, vt[j], api, if j == 0 then c else c2).store) {
      if j < |vt0| {
        assert saved[j] == saved0[j] && vt[j] == vt0[j];
      }
    }
  }

  /** The saves after the first `k` entries of the target list, when `$name`
      settles from `c` to `c2`: one per entry that is not skipped, on that
      site, of the record lines 80-143 build with `$name` equal to `c` for
      the first one and `c2` for the others. */
  ghost predicate SavesHold(p: Pod, rel: seq<Rel>, site: int, api: Api, ts: seq<Target>, k: nat, c: string, c2: string)
    requires k <= |ts|
  {
    var s := TargetsUpTo(p, rel, site, api, ts, k, c);
    var vt := ValidTargets(ts[..k], site);
    var saved := SavedAt(s.events, Ambient(site, []));
    && s.name == (if vt == [] then c else c2)
    && |saved| == |vt|
    && (forall j :: 0 <= j < |vt| ==> saved[j] == (vt[j], ReconcileTarget(p, rel, vt[j], api, if j == 0 then c else c2).store))
  }

  /** Entry `k - 1` of the target list is processed. */
  lemma SavesNext(p: Pod, rel: seq<Rel>, site: int, api: Api, ts: seq<Target>, k: nat, c: string, c2: string)
    requires 0 < k <= |ts| && NameSettles(p, rel, api, c, c2) && !Skipped(ts[k - 1], site)
    requires SavesHold(p, rel, site, api, ts, k - 1, c, c2)
    ensures SavesHold(p, rel, site, api, ts, k, c, c2)
  {
    var a := Ambient(site, []);
    var s0 := TargetsUpTo(p, rel, site, api, ts, k - 1, c);
    var vt0 := ValidTargets(ts[..k - 1], site);
    var t := ts[k - 1];
    ValidTargetsPrefix(ts, k, site);
    var r := ReconcileTarget(p, rel, t.site, api, s0.name);
    ReconcileEvents(p, rel, t.site, api, s0.name, Replay(s0.events, a));
    AppendSave(s0.events, r.events, t.site, r.store, a);
    SavesStep(p, rel, api, c, c2, SavedAt(s0.events, a), vt0, t.site, r.store);
  }

  /** Entry `k - 1` of the target list is skipped. */
  lemma SavesSkip(p: Pod, rel: seq<Rel>, site: int, api: Api, ts: seq<Target>, k: nat, c: string, c2: string)
    requires 0 < k <= |ts| && Skipped(ts[k - 1], site)
    requires SavesHold(p, rel, site, api, ts, k - 1, c, c2)
    ensures SavesHold(p, rel, site, api, ts, k, c, c2)
  {
    ValidTargetsPrefix(ts, k, site);
  }

  /** After the first `k` entries of the target list, when `$name` settles
      from `c` to `c2`: `SavesHold`. */
  lemma {:induction false} TargetsSaves(p: Pod, rel: seq<Rel>, site: int, api: Api, ts: seq<Target>, k: nat, c: string, c2: string)
    requires k <= |ts| && NameSettles(p, rel, api, c, c2)
    ensures var s := TargetsUpTo(p, rel, site, api, ts, k, c);
      var vt := ValidTargets(ts[..k], site);
      var saved := SavedAt(s.events, Ambient(site, []));
      && s.name == (if vt == [] then c else c2)
      && |saved| == |vt|
      && (forall j :: 0 <= j < |vt| ==> saved[j] == (vt[j], ReconcileTarget(p, rel, vt[j], api, if j == 0 then c else c2).store))
  {
    if k == 0 {
      assert ts[..0] == [];
    } else {
      TargetsSaves(p, rel, site, api, ts, k - 1, c, c2);
      assert SavesHold(p, rel, site, api, ts, k - 1, c, c2);
      if Skipped(ts[k - 1], site) {
        SavesSkip(p, rel, site, api, ts, k, c, c2);
      } else {
        SavesNext(p, rel, site, api, ts, k, c, c2);
      }
      assert SavesHold(p, rel, site, api, ts, k, c, c2);
    }
  }

  /** For the Pod `src`, `$name` settles from the last field's name to
      `CarriedAt(1)`. */
  lemma SourceNameSettles(src: Pod, api: Api)
    requires Distinct(Names(src.fields))
    ensures NameSettles(Stripped(src), SourceRels(src, api), api, LastName(src.fields), CarriedAt(src, api, 1))
  {
    CarriedIsName(src, api, 0);
    CarriedIsName(src, api, 1);
    forall t: int ensures
      && ReconcileTarget(Stripped(src), SourceRels(src, api), t, api, LastName(src.fields)).name == CarriedAt(src, api, 1)
      && ReconcileTarget(Stripped(src), SourceRels(src, api), t, api, CarriedAt(src, api, 1)).name == CarriedAt(src, api, 1)
    {
      StoreShape(src, t, api, LastName(src.fields));
      StoreShape(src, t, api, CarriedAt(src, api, 1));
    }
  }

  // ------------------------------------------------------------- theorems

  /** Lines 44-46: without a non-empty array of targets nothing is called. */
  lemma SyncNoOp(loaded: Option<Pod>, site: int, api: Api)
    requires loaded.None? || !Configured(loaded.value)
    ensures SyncTrace(loaded, site, api) == []
  {
  }

  /** API reads, then calls without a restore, then one restore: the
      switches and saves are those of the middle part, and the restore is
      the only one. */
  lemma Framed(pre: seq<Event>, mid: seq<Event>, a: Ambient)
    requires Quiet(pre) && Restore !in mid
    ensures var trace := pre + mid + [Restore];
      && Switches(trace) == Switches(mid)
      && SavedAt(trace, a) == SavedAt(mid, a)
      && Replay(trace, a) == Apply(Replay(mid, a), Restore)
      && trace[|trace| - 1] == Restore
      && Restore !in trace[..|trace| - 1]
  {
    var trace := pre + mid + [Restore];
    QuietEffects(pre, a);
    TraceAppend(pre, mid, a);
    TraceAppend(pre + mid, [Restore], a);
    assert Switches([Restore]) == [];
    assert SavedAt([Restore], Replay(pre + mid, a)) == [];
    assert trace[..|trace| - 1] == pre + mid;
    assert Restore !in pre by {
      assert forall i :: 0 <= i < |pre| ==> pre[i] != Restore;
    }
  }

  /** `restore_current_blog` after switching from `site` to each of `vt`:
      one step back. */
  lemma RestoreFrontier(site: int, vt: seq<int>)
    ensures var after := Apply(Frontier(site, vt), Restore);
      && after.current == (if |vt| <= 1 then site else vt[|vt| - 2])
      && |after.stack| == (if vt == [] then 0 else |vt| - 1)
  {
    if |vt| >= 2 {
      assert ([site] + vt[..|vt| - 1])[|vt| - 1] == vt[|vt| - 2];
    }
  }

  /** The trace of `sync_pod` on a configured Pod is the relationship
      lookups, the calls for the targets, and one restore. */
  lemma SyncTraceSplit(src: Pod, site: int, api: Api)
    requires Configured(src) && Distinct(Names(src.fields))
    ensures var p := Stripped(src);
      var ts := src.syncTo.entries;
      var s := TargetsUpTo(p, SourceRels(src, api), site, api, ts, |ts|, LastName(src.fields));
      var pre := RelsUpTo(p.fields, |p.fields|, api).events;
      && Quiet(pre)
      && SyncTrace(Some(src), site, api) == pre + s.events + [Restore]
  {
    var p := Stripped(src);
    StrippedNames(src);
    RelsUpToShape(p.fields, |p.fields|, api);
  }

  /** Lines 71-146: `switch_to_blog` is called once per entry of the target
      list that is numeric and is not the source site, in list order and
      with repetitions; `restore_current_blog` is called exactly once, last;
      every save happens on the site just switched to, one per such entry,
      and saves the record `StoreFor` describes. */
  lemma SyncTargets(src: Pod, site: int, api: Api)
    requires Configured(src) && Distinct(Names(src.fields))
    ensures var trace := SyncTrace(Some(src), site, api);
      var vt := ValidTargets(src.syncTo.entries, site);
      var saved := SavedAt(trace, Ambient(site, []));
      && Switches(trace) == vt
      && trace[|trace| - 1] == Restore
      && Restore !in trace[..|trace| - 1]
      && |saved| == |vt|
      && (forall j :: 0 <= j < |vt| ==> saved[j] == (vt[j], StoreFor(src, api, vt[j], j)))
  {
    var ts := src.syncTo.entries;
    var p := Stripped(src);
    var rel := SourceRels(src, api);
    var c := LastName(src.fields);
    assert ts[..|ts|] == ts;
    var c2 := CarriedAt(src, api, 1);
    TargetsSwitches(p, rel, site, api, ts, |ts|, c);
    SourceNameSettles(src, api);
    TargetsSaves(p, rel, site, api, ts, |ts|, c, c2);
    SyncTraceSplit(src, site, api);
    var s := TargetsUpTo(p, rel, site, api, ts, |ts|, c);
    Framed(RelsUpTo(p.fields, |p.fields|, api).events, s.events, Ambient(site, []));
    var vt := ValidTargets(ts, site);
    forall j | 0 <= j < |vt| ensures StoreFor(src, api, vt[j], j) == ReconcileTarget(p, rel, vt[j], api, if j == 0 then c else c2).store {
    }
  }

  /** Line 146 runs once, after the loop: with two targets or more the site
      left active is the next-to-last target, not the source site, and the
      stack of switched-from sites is not empty. */
  lemma SyncLeavesSite(src: Pod, site: int, api: Api)
    requires Configured(src) && Distinct(Names(src.fields))
    ensures var vt := ValidTargets(src.syncTo.entries, site);
      var after := Replay(SyncTrace(Some(src), site, api), Ambient(site, []));
      && after.current == (if |vt| <= 1 then site else vt[|vt| - 2])
      && |after.stack| == (if vt == [] then 0 else |vt| - 1)
  {
    var ts := src.syncTo.entries;
    var p := Stripped(src);
    var rel := SourceRels(src, api);
    var c := LastName(src.fields);
    assert ts[..|ts|] == ts;
    TargetsSwitches(p, rel, site, api, ts, |ts|, c);
    SyncTraceSplit(src, site, api);
    var s := TargetsUpTo(p, rel, site, api, ts, |ts|, c);
    Framed(RelsUpTo(p.fields, |p.fields|, api).events, s.events, Ambient(site, []));
    RestoreFrontier(site, ValidTargets(ts, site));
  }

  /** Lines 71-78: the entries that are synchronised are exactly the numeric
      ones other than the source site. */
  lemma {:induction false} ValidTargetsMembers(ts: seq<Target>, site: int, v: int)
    ensures v in ValidTargets(ts, site) <==> v != site && Numeric(v) in ts
  {
    if ts != [] {
      ValidTargetsMembers(ts[1..], site, v);
      assert ts == [ts[0]] + ts[1..];
    }
  }

  // ----------------------------------------------------- the saved records

  /** The `j`-th record saved, on `site` (lines 86-143): the source Pod with
      the Pod id of the remote Pod when one was found (and none otherwise),
      and each field changed only in its id, `pod_id` and `sister_id`, as
      `SavedField` says with `$name` equal to `CarriedAt(j)`. */
  lemma SavedRecord(src: Pod, api: Api, site: int, j: nat)
    requires Distinct(Names(src.fields))
    ensures var r := StoreFor(src, api, site, j);
      var found := FindRemotePod(src, PodsOn(api, site)).found;
      && r == src.(id := r.id, fields := r.fields)
      && r.id == (if found.Some? then Some(found.value.id) else None)
      && |r.fields| == |src.fields|
      && forall m :: 0 <= m < |src.fields| ==> r.fields[m] == SavedField(src, api, site, found, CarriedAt(src, api, j), m)
  {
    CarriedIsName(src, api, j);
    StoreShape(src, site, api, CarriedAt(src, api, j));
    StoreFields(src, site, api, CarriedAt(src, api, j));
  }

  /** Lines 104-120, field ids in priority order: the id of the remote field
      of the same name; else, when the old name is set and differs from the
      name, the id of the remote field of the old name; else none, since line
      50 removed it. Without a remote Pod no field has an id. */
  lemma SavedFieldIds(src: Pod, api: Api, site: int, j: nat, m: int)
    requires Distinct(Names(src.fields)) && 0 <= m < |src.fields|
    ensures var f := src.fields[m];
      var found := FindRemotePod(src, PodsOn(api, site)).found;
      var saved := StoreFor(src, api, site, j).fields;
      |saved| == |src.fields| &&
      saved[m].id ==
        if found.None? then None
        else if f.name in found.value.fieldIds then Some(found.value.fieldIds[f.name])
        else if f.oldName != "" && f.oldName != f.name && f.oldName in found.value.fieldIds then Some(found.value.fieldIds[f.oldName])
        else None
  {
    SavedRecord(src, api, site, j);
  }

  /** Line 106 on the first target processed: `$name` starts at the last
      field's name, so every field gets the remote Pod's id as `pod_id`. */
  lemma FirstTargetPodIds(src: Pod, api: Api, site: int)
    requires Distinct(Names(src.fields))
    requires FindRemotePod(src, PodsOn(api, site)).found.Some?
    ensures var remote := FindRemotePod(src, PodsOn(api, site)).found.value;
      var saved := StoreFor(src, api, site, 0).fields;
      |saved| == |src.fields| && forall m :: 0 <= m < |src.fields| ==> saved[m].podId == Some(remote.id)
  {
    SavedRecord(src, api, site, 0);
  }

  /** The last key of a non-empty `$rel` is the last field's name exactly when
      the last field is a relationship. */
  lemma LastRelationKey(src: Pod, api: Api)
    requires Distinct(Names(src.fields)) && src.fields != [] && SourceRels(src, api) != []
    ensures LastKey(SourceRels(src, api)) == LastName(src.fields) <==> IsRelation(src.fields[|src.fields| - 1])
  {
    var p := Stripped(src);
    var n := |src.fields|;
    var rel := SourceRels(src, api);
    StrippedNames(src);
    RelsUpToShape(p.fields, n, api);
    var f := p.fields[n - 1];
    assert f == src.fields[n - 1].(id := None);
    if IsRelation(f) {
      assert rel == RelsUpTo(p.fields, n - 1, api).rel + [RelOf(f, api)];
    } else {
      assert RelIndexed(rel, p.fields, n, api, n - 1);
      assert Keys(rel)[|rel| - 1] == LastKey(rel);
    }
  }

  /** Line 106 on every later target: `$name` starts at the last key of
      `$rel` (or at the last field's name when `$rel` is empty), so the last
      field gets the remote Pod's id when it is a relationship or `$rel` is
      empty, and keeps the source site's `pod_id` otherwise; every other
      field gets the remote Pod's id. */
  lemma LaterTargetPodIds(src: Pod, api: Api, site: int, j: nat)
    requires Distinct(Names(src.fields)) && 0 < j
    requires FindRemotePod(src, PodsOn(api, site)).found.Some?
    ensures var remote := FindRemotePod(src, PodsOn(api, site)).found.value;
      var n := |src.fields|;
      var r := StoreFor(src, api, site, j);
      && |r.fields| == n
      && (forall m :: 0 <= m < n - 1 ==> r.fields[m].podId == Some(remote.id))
      && (n > 0 ==>
            r.fields[n - 1].podId ==
              (if SourceRels(src, api) == [] || IsRelation(src.fields[n - 1]) then Some(remote.id) else src.fields[n - 1].podId))
  {
    SavedRecord(src, api, site, j);
    if src.fields != [] && SourceRels(src, api) != [] {
      LastRelationKey(src, api);
    }
  }

  /** Lines 95-121 when no remote Pod was found: the record is saved without
      a Pod id and without field ids, and every field keeps the `pod_id` it
      had on the source site, since line 50 removes only the field id. */
  lemma MissingPodKeepsPodIds(src: Pod, api: Api, site: int, j: nat)
    requires Distinct(Names(src.fields))
    requires FindRemotePod(src, PodsOn(api, site)).found.None?
    ensures var r := StoreFor(src, api, site, j);
      && r.id.None?
      && |r.fields| == |src.fields|
      && forall m :: 0 <= m < |src.fields| ==> r.fields[m].id.None? && r.fields[m].podId == src.fields[m].podId
  {
    SavedRecord(src, api, site, j);
  }

  /** Lines 82-85 and 95-97: when no Pod on `site` has the source Pod's name
      but one has its old name, the saved record takes that Pod's id and its
      field ids. */
  lemma RenamedPodAdopted(src: Pod, api: Api, site: int, j: nat)
    requires Distinct(Names(src.fields))
    requires src.name !in PodsOn(api, site) && PodOldName(src).Some? && src.oldName in PodsOn(api, site)
    ensures var remote := PodsOn(api, site)[src.oldName];
      var r := StoreFor(src, api, site, j);
      && r.id == Some(remote.id)
      && |r.fields| == |src.fields|
      && forall m :: 0 <= m < |src.fields| ==> r.fields[m].id == AdoptedId(remote, src.fields[m].(id := None))
  {
    SavedRecord(src, api, site, j);
  }

  /** Lines 124-138: a relationship field whose sister was not found on the
      source site keeps its `sister_id`, and so does every field that is not
      a relationship; the sister of any other relationship field is the
      target's field of the related Pod with the sister's name, or `false`. */
  lemma SavedSisters(src: Pod, api: Api, site: int, j: nat, m: int)
    requires Distinct(Names(src.fields)) && 0 <= m < |src.fields|
    ensures var f := src.fields[m];
      var fields := StoreFor(src, api, site, j).fields;
      |fields| == |src.fields| &&
      var saved := fields[m].sister;
      && (!IsRelation(f) || f.sister.id !in api.sourceFieldNames ==> saved == f.sister)
      && (IsRelation(f) && f.sister.id in api.sourceFieldNames ==>
            var q := (f.pickVal, api.sourceFieldNames[f.sister.id]);
            saved == (if q in FieldsOn(api, site) then SisterId(FieldsOn(api, site)[q]) else NoSister))
  {
    SavedRecord(src, api, site, j);
  }
}
