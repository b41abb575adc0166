/**
 * What a resource page renders from its snapshot. The page shows an empty
 * message when the snapshot is falsy or has no keys. Otherwise it renders one
 * section per `Object.entries` pair: a header with the value's `.length`, then
 * either a "none found" line when that length is 0, or one table row per
 * element through `.map`. Reading a property of `null`, or calling `.map` on a
 * value that is not an array, throws during render.
 */
module RegionView {
  import opened Types
  import opened Json

  /** A key produced by `Object.entries`: an object member name, or the index
      of an array element or string character. */
  datatype EntryKey = Name(name: string) | Index(i: nat)

  /** `Object.entries(v)` for a truthy value; a number or `true` has none. */
  function Entries(v: Json): map<EntryKey, Json> {
    match v
    case Obj(m) => MemberEntries(m)
    case Arr(items) => map i | 0 <= i < |items| :: Index(i) := items[i]
    case Str(s) => map i | 0 <= i < |s| :: Index(i) := Str([s[i]])
    case _ => map[]
  }

  /** The entries of an object: its members, keyed by name. */
  function MemberEntries(m: map<string, Json>): map<EntryKey, Json> {
    map k | k in m :: Name(k) := m[k]
  }

  /** `(!byRegion || Object.keys(byRegion).length === 0)`. */
  predicate EmptyMessage(snapshot: Json) {
    !Truthy(snapshot) || KeyCount(snapshot) == 0
  }

  /** Whether React can render a value as a child: a plain object throws
      ("Objects are not valid as a React child"), an array renders element by
      element, and null, booleans, numbers and strings render. */
  predicate ValidChild(v: Json)
    decreases v
  {
    match v
    case Obj(_) => false
    case Arr(items) => forall i :: 0 <= i < |items| ==> ValidChild(items[i])
    case _ => true
  }

  /** Whether one table row renders. `cells` are the members the page shows
      as text (`{instance.Name}` and the like). A `null` record throws on the
      first member read; a member that is missing, or a record that is not an
      object, reads `undefined` and shows nothing; a present member must be a
      valid child. Members passed through `new Date(...)` or compared with
      `===` never throw and are not among `cells`. */
  predicate RowRenders(row: Json, cells: set<string>) {
    row != Null && (row.Obj? ==> forall n :: n in cells && n in row.fields ==> ValidChild(row.fields[n]))
  }

  /** The rows one section renders, or `None` when rendering it throws. A value
      whose `.length` is 0 (an empty array, an empty string, an object with a
      `length` member equal to 0) shows "none found"; an array is mapped to rows,
      which throws at a row that does not render; any other value throws,
      either reading `.length` of `null` or calling a `.map` that does not
      exist. */
  function SectionRows(v: Json, cells: set<string>): Option<seq<Json>> {
    match v
    case Arr(items) => if forall i :: 0 <= i < |items| ==> RowRenders(items[i], cells) then Some(items) else None
    case Str(s) => if s == "" then Some([]) else None
    case Obj(m) => if "length" in m && m["length"] == Num(0) then Some([]) else None
    case _ => None
  }

  /** The page's region list as written: every entry of the snapshot is rendered
      as a region section, and the whole render throws (`None`) if any does. */
  function RenderAsWritten(snapshot: Json, cells: set<string>): Option<map<EntryKey, seq<Json>>> {
    if !Truthy(snapshot) then Some(map[])
    else
      var e := Entries(snapshot);
      if forall k :: k in e ==> SectionRows(e[k], cells).Some? then
        Some(map k | k in e :: SectionRows(e[k], cells).value)
      else None
  }

  /** A region value that is a list of records. */
  predicate IsRecordList(v: Json) {
    v.Arr?
  }

  /** The elements of a record list that are not null. */
  function NonNull(items: seq<Json>): (r: seq<Json>)
    ensures forall i :: 0 <= i < |r| ==> r[i] != Null
    ensures forall x :: x in r <==> x in items && x != Null
    ensures (forall i :: 0 <= i < |items| ==> items[i] != Null) ==> r == items
    decreases |items|
  {
    if items == [] then []
    else (if items[0] == Null then [] else [items[0]]) + NonNull(items[1..])
  }

  /** The region list as evidently intended: only entries whose value is a list
      of records are regions (so a diagnostic member such as `DebugErrors` is
      not), and null records are skipped rather than crashing the page. */
  function RegionSections(snapshot: Json): (r: map<EntryKey, seq<Json>>)
    ensures forall k :: k in r <==> Truthy(snapshot) && k in Entries(snapshot) && IsRecordList(Entries(snapshot)[k])
    ensures forall k :: k in r ==>
              k in Entries(snapshot) && IsRecordList(Entries(snapshot)[k]) &&
              (forall x :: x in r[k] <==> x in Entries(snapshot)[k].items && x != Null) &&
              ((forall i :: 0 <= i < |Entries(snapshot)[k].items| ==> Entries(snapshot)[k].items[i] != Null) ==>
                 r[k] == Entries(snapshot)[k].items)
  {
    if !Truthy(snapshot) then map[]
    else
      var e := Entries(snapshot);
      map k | k in e && IsRecordList(e[k]) :: NonNull(e[k].items)
  }

  /** The empty message as evidently intended: no region section to show. */
  predicate NoRegions(snapshot: Json) {
    RegionSections(snapshot) == map[]
  }

  /** A truthy snapshot has no keys exactly when it has no entries. */
  lemma KeyCountZeroIffNoEntries(v: Json)
    requires Truthy(v)
    ensures KeyCount(v) == 0 <==> Entries(v) == map[]
  {
    match v
    case Obj(m) =>
      if m != map[] {
        var k :| k in m;
        assert Name(k) in Entries(v);
      }
    case Arr(items) =>
      if items != [] {
        assert Index(0) in Entries(v);
      }
    case Str(s) =>
      if s != "" {
        assert Index(0) in Entries(v);
      }
    case _ =>
  }

  /** The empty message shows exactly when the page renders no section at all. */
  lemma EmptyMessageIffNoSection(snapshot: Json, cells: set<string>)
    ensures EmptyMessage(snapshot) <==> RenderAsWritten(snapshot, cells) == Some(map[])
  {
    if Truthy(snapshot) {
      KeyCountZeroIffNoEntries(snapshot);
      var e := Entries(snapshot);
      if e != map[] {
        var k :| k in e;
        if RenderAsWritten(snapshot, cells).Some? {
          assert k in RenderAsWritten(snapshot, cells).value;
        }
      }
    }
  }

  /** The render as written throws as soon as one entry's value is an object
      without a zero `length` member: `.length` is undefined, not 0, so `.map`
      is called on an object. */
  lemma ObjectEntryCrashesRender(snapshot: Json, cells: set<string>, k: EntryKey)
    requires Truthy(snapshot)
    requires k in Entries(snapshot)
    requires Entries(snapshot)[k].Obj? && "length" !in Entries(snapshot)[k].fields
    ensures RenderAsWritten(snapshot, cells).None?
  {
  }

  /** The entries of an object are its members, by name. */
  lemma ObjectEntries(v: Json)
    requires v.Obj?
    ensures forall k :: k in Entries(v) <==> k.Name? && k.name in v.fields
    ensures forall n :: n in v.fields ==> Name(n) in Entries(v) && Entries(v)[Name(n)] == v.fields[n]
  {
    var m := v.fields;
    assert Entries(v) == MemberEntries(m);
    forall n | n in m
      ensures Name(n) in MemberEntries(m) && MemberEntries(m)[Name(n)] == m[n]
    {
      assert Name(n) in MemberEntries(m);
    }

  }

  /** One member that cannot be rendered as a section throws the whole render. */
  lemma ThrowingMemberBreaksRender(snapshot: Json, cells: set<string>, name: string)
    requires snapshot.Obj? && name in snapshot.fields
    requires SectionRows(snapshot.fields[name], cells).None?
    ensures RenderAsWritten(snapshot, cells).None?
  {
    ObjectEntries(snapshot);
  }

  /** A record that shows an object in one of its cells throws the whole
      render, even inside a well-formed list of records: React refuses an
      object as a child. */
  lemma ObjectCellCrashesRender(snapshot: Json, cells: set<string>, region: string, j: nat, n: string)
    requires snapshot.Obj? && region in snapshot.fields && snapshot.fields[region].Arr?
    requires j < |snapshot.fields[region].items|
    requires var row := snapshot.fields[region].items[j];
             row.Obj? && n in cells && n in row.fields && row.fields[n].Obj?
    ensures RenderAsWritten(snapshot, cells).None?
  {
    assert !RowRenders(snapshot.fields[region].items[j], cells);
    ThrowingMemberBreaksRender(snapshot, cells, region);
  }

  /** Where every entry is a list of records whose rows render, the corrected
      region list is exactly what the page renders as written. */
  lemma CorrectedAgreesOnRecordLists(snapshot: Json, cells: set<string>)
    requires forall k :: k in Entries(snapshot) ==>
               IsRecordList(Entries(snapshot)[k]) &&
               forall i :: 0 <= i < |Entries(snapshot)[k].items| ==> RowRenders(Entries(snapshot)[k].items[i], cells)
    ensures RenderAsWritten(snapshot, cells) == Some(RegionSections(snapshot))
  {
    if Truthy(snapshot) {
      var e := Entries(snapshot);
      var w := RenderAsWritten(snapshot, cells);
      assert w.Some?;
      assert w.value.Keys == RegionSections(snapshot).Keys;
      forall k | k in w.value
        ensures w.value[k] == RegionSections(snapshot)[k]
      {
        assert NonNull(e[k].items) == e[k].items;
      }
      assert w.value == RegionSections(snapshot);
    }
  }

  /** Whenever the page shows its empty message, the corrected page has no
      region to show either. */
  lemma EmptyMessageImpliesNoRegions(snapshot: Json)
    requires EmptyMessage(snapshot)
    ensures NoRegions(snapshot)
  {
    if Truthy(snapshot) {
      KeyCountZeroIffNoEntries(snapshot);
    }
  }
}
