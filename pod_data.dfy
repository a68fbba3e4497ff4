/** The records the Pods API hands to the synchronisation: a Pod (a content
    type), its fields, the target list of the multisite option, and the
    remote Pod as `load_pod` returns it on another site. */
module PodData {

  datatype Option<T> = None | Some(value: T)

  /** A database identifier (a post id). Ids are positive, so an id is never
      one of PHP's "empty" values. */
  type Id = x: int | x > 0 witness 1

  /** The `sister_id` of a relationship field. `NoSister` stands for every
      empty value, the `false` written on line 136 included. */
  datatype Sister = NoSister | SisterId(id: Id)

  /** One entry of `$pod['fields']`. `oldName` is `options['old_name']`, with
      "" for a missing one; `rest` stands for every other attribute, which the
      synchronisation never touches. */
  datatype Field = Field(
    id: Option<Id>,
    name: string,
    kind: string,
    podId: Option<Id>,
    sister: Sister,
    pickVal: string,
    oldName: string,
    rest: map<string, string>)

  /** One entry of `multisite_sync_to_sites`: a numeric value, already
      converted with `(int)`, or anything `is_numeric` rejects. */
  datatype Target = Numeric(site: int) | NonNumeric

  /** The option `multisite_sync_to_sites`: empty (missing, null, "", 0, ...),
      a non-empty value that is not an array, or an array of entries. */
  datatype SyncSetting = Unset | Scalar | Sites(entries: seq<Target>)

  /** A Pod as `load_pod` returns it. `oldName` is `options['old_name']` ("" when
      not set) and `syncTo` is `options['multisite_sync_to_sites']`. */
  datatype Pod = Pod(
    id: Option<Id>,
    name: string,
    oldName: string,
    syncTo: SyncSetting,
    fields: seq<Field>,
    rest: map<string, string>)

  /** What the synchronisation reads of a Pod found on a target site: its id
      and the id of each of its fields, by field name. */
  datatype RemotePod = RemotePod(id: Id, fieldIds: map<string, Id>)

  /** One attribute written into a field entry. */
  datatype Attr = PodIdAttr(podId: Id) | IdAttr(id: Id) | SisterAttr(sister: Sister)

  function SetAttr(f: Field, a: Attr): Field
  {
    match a
    case PodIdAttr(x) => f.(podId := Some(x))
    case IdAttr(x) => f.(id := Some(x))
    case SisterAttr(s) => f.(sister := s)
  }

  /** The keys of `$pod['fields']`: Pods keys every field by its name. */
  function Names(fs: seq<Field>): seq<string>
  {
    seq(|fs|, i requires 0 <= i < |fs| => fs[i].name)
  }

  function LastName(fs: seq<Field>): string
  {
    if fs == [] then "" else fs[|fs| - 1].name
  }

  predicate Distinct<T(==)>(s: seq<T>)
  {
    forall i, j :: 0 <= i < j < |s| ==> s[i] != s[j]
  }

  /** The position of the first occurrence of `x` in `s`, or -1. */
  function Find<T(==)>(s: seq<T>, x: T): (i: int)
    ensures -1 <= i < |s|
    ensures i < 0 <==> x !in s
    ensures 0 <= i ==> s[i] == x && forall k :: 0 <= k < i ==> s[k] != x
  {
    if s == [] then -1
    else if s[0] == x then 0
    else
      var j := Find(s[1..], x);
      if j < 0 then -1 else j + 1
  }

  /** `$fields[$name][attr] = value`. A name that is not a key leaves the
      fields unchanged; the lemmas show that the synchronisation only ever
      writes to names that are keys. */
  function Assign(fs: seq<Field>, name: string, a: Attr): seq<Field>
  {
    var i := Find(Names(fs), name);
    if i < 0 then fs else fs[i := SetAttr(fs[i], a)]
  }

  lemma FindDistinct<T>(s: seq<T>, k: int)
    requires Distinct(s) && 0 <= k < |s|
    ensures Find(s, s[k]) == k
  {
  }

  /** In a field list with distinct names, writing to the name of entry `m`
      changes entry `m` and nothing else, and keeps every name. */
  lemma AssignAt(fs: seq<Field>, m: int, a: Attr)
    requires Distinct(Names(fs)) && 0 <= m < |fs|
    ensures Assign(fs, fs[m].name, a) == fs[m := SetAttr(fs[m], a)]
    ensures Names(Assign(fs, fs[m].name, a)) == Names(fs)
  {
    assert Names(fs)[m] == fs[m].name;
    FindDistinct(Names(fs), m);
    assert Names(fs[m := SetAttr(fs[m], a)]) == Names(fs);
  }

  /** Writing to a name that is not a key changes nothing. */
  lemma AssignMissing(fs: seq<Field>, name: string, a: Attr)
    requires name !in Names(fs)
    ensures Assign(fs, name, a) == fs
  {
  }
}
