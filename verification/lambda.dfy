/**
 * What the four listing handlers share: the region-keyed result map they
 * build (a region is kept only when it produced at least one record), the
 * JSON payload made from it, and the shape of a handler's return value.
 */
module Lambda {
  import opened Types
  import opened Json

  /** Region name to the records found there, in the order they were found. */
  type Grouped = map<string, seq<Json>>

  /** The loop `for region in regions: ... if records: result[region] = records`,
      given each visited region with the records it produced. A later visit of
      the same name overwrites an earlier one unless it found nothing. */
  function KeepNonEmpty(visits: seq<(string, seq<Json>)>): (m: Grouped)
    ensures forall k :: k in m ==> m[k] != []
    ensures forall k :: k in m ==> exists i :: 0 <= i < |visits| && visits[i] == (k, m[k])
    decreases |visits|
  {
    if visits == [] then map[]
    else
      var (region, records) := visits[|visits| - 1];
      var earlier := KeepNonEmpty(visits[..|visits| - 1]);
      if records != [] then earlier[region := records] else earlier
  }

  /** A region is a key of the result exactly when some visit of it found
      records. */
  lemma {:induction false} KeptIffSomeRecords(visits: seq<(string, seq<Json>)>, k: string)
    ensures k in KeepNonEmpty(visits) <==>
              exists i :: 0 <= i < |visits| && visits[i].0 == k && visits[i].1 != []
    decreases |visits|
  {
    if visits != [] {
      var n := |visits| - 1;
      KeptIffSomeRecords(visits[..n], k);
      if exists i :: 0 <= i < |visits| && visits[i].0 == k && visits[i].1 != [] {
        var i :| 0 <= i < |visits| && visits[i].0 == k && visits[i].1 != [];
        if i < n {
          assert visits[..n][i] == visits[i];
        }
      }
    }
  }

  /** The records under a region are those of its last visit that found any. */
  lemma {:induction false} LastVisitWins(visits: seq<(string, seq<Json>)>, i: nat)
    requires i < |visits| && visits[i].1 != []
    requires forall j :: i < j < |visits| && visits[j].0 == visits[i].0 ==> visits[j].1 == []
    ensures visits[i].0 in KeepNonEmpty(visits)
    ensures KeepNonEmpty(visits)[visits[i].0] == visits[i].1
    decreases |visits|
  {
    var n := |visits| - 1;
    var earlier := KeepNonEmpty(visits[..n]);
    assert KeepNonEmpty(visits) ==
             if visits[n].1 != [] then earlier[visits[n].0 := visits[n].1] else earlier;
    if i < n {
      forall j | i < j < n && visits[..n][j].0 == visits[..n][i].0
        ensures visits[..n][j].1 == []
      {
        assert visits[..n][j] == visits[j];
      }
      LastVisitWins(visits[..n], i);
      assert visits[..n][i] == visits[i];
      assert visits[n].0 != visits[i].0 || visits[n].1 == [];
    }
  }

  /** When every visit's records name their own region in a `Region` field,
      so do the records of every key of the result. */
  lemma {:induction false} RecordsCarryRegion(visits: seq<(string, seq<Json>)>)
    requires forall i, j :: 0 <= i < |visits| && 0 <= j < |visits[i].1| ==>
               Field(visits[i].1[j], "Region") == Some(Str(visits[i].0))
    ensures forall k, j :: k in KeepNonEmpty(visits) && 0 <= j < |KeepNonEmpty(visits)[k]| ==>
              Field(KeepNonEmpty(visits)[k][j], "Region") == Some(Str(k))
  {
    var m := KeepNonEmpty(visits);
    forall k, j | k in m && 0 <= j < |m[k]|
      ensures Field(m[k][j], "Region") == Some(Str(k))
    {
      var i :| 0 <= i < |visits| && visits[i] == (k, m[k]);
    }
  }

  /** `json.dumps(result)`'s value: an object with one array per region. */
  function GroupedJson(m: Grouped): (v: Json)
    ensures v.Obj? && v.fields.Keys == m.Keys
    ensures forall k :: k in m ==> v.fields[k] == Arr(m[k])
  {
    Obj(map k | k in m :: Arr(m[k]))
  }

  /** What a handler does: return a dict, whose `body` member is the payload
      serialised with `json.dumps` (status code and whether a JSON content-type
      header is attached alongside), or raise. */
  datatype Invocation =
    | Returned(statusCode: int, jsonHeader: bool, payload: Json)
    | Raised

  /** The returned dict's members other than `body`. */
  function Others(inv: Invocation): (m: map<string, Json>)
    requires inv.Returned?
    ensures "body" !in m && "statusCode" in m && m["statusCode"] == Num(inv.statusCode)
    ensures "headers" in m <==> inv.jsonHeader
  {
    var base := map["statusCode" := Num(inv.statusCode)];
    if inv.jsonHeader then base["headers" := Obj(map["Content-Type" := Str("application/json")])] else base
  }
}
