/**
 * The RDS listing handler. It lists the regions and describes the database
 * instances of each one. A region whose describe call raises a client error
 * is skipped. Any other exception propagates and the handler raises; so does
 * a database entry without an identifier or a creation time, which are read
 * without a default. The AWS answers are inputs.
 */
module Rds {
  import opened Types
  import opened Json
  import opened Lambda

  /** One entry of `DBInstances`; a member it lacks is `None`. `createTime`
      is the formatted creation time. */
  datatype RawDb = RawDb(
    identifier: Option<string>,
    engine: Option<string>,
    instanceClass: Option<string>,
    createTime: Option<string>,
    zone: Option<string>,
    status: Option<string>)

  /** One region's answer to `describe_db_instances`. */
  datatype RegionAnswer =
    | ClientFailure              // a `ClientError`: the region is skipped
    | OtherFailure               // any other exception: it propagates
    | Described(dbs: seq<RawDb>) // the instances, in response order

  /** An entry the handler can read without a KeyError. */
  predicate Readable(db: RawDb) {
    db.identifier.Some? && db.createTime.Some?
  }

  /** The record of one database instance. The status comes from
      `DBInstanceStatus`; identifier and creation time are not defaulted. */
  function Record(db: RawDb): (rec: Json)
    requires Readable(db)
    ensures Field(rec, "DBInstanceIdentifier") == Some(Str(db.identifier.value))
    ensures Field(rec, "InstanceCreateTime") == Some(Str(db.createTime.value))
    ensures Field(rec, "Status") == Some(Str(db.status.GetOr("N/A")))
    ensures Field(rec, "Engine") == Some(Str(db.engine.GetOr("N/A")))
    ensures Field(rec, "DBInstanceClass") == Some(Str(db.instanceClass.GetOr("N/A")))
    ensures Field(rec, "AvailabilityZone") == Some(Str(db.zone.GetOr("N/A")))
    ensures StringRecord(rec)
  {
    Obj(map[
      "DBInstanceIdentifier" := Str(db.identifier.value),
      "Engine" := Str(db.engine.GetOr("N/A")),
      "DBInstanceClass" := Str(db.instanceClass.GetOr("N/A")),
      "InstanceCreateTime" := Str(db.createTime.value),
      "AvailabilityZone" := Str(db.zone.GetOr("N/A")),
      "Status" := Str(db.status.GetOr("N/A"))])
  }

  /** Whether processing a region raises out of the handler. */
  predicate Raises(a: RegionAnswer) {
    a.OtherFailure? || (a.Described? && exists j :: 0 <= j < |a.dbs| && !Readable(a.dbs[j]))
  }

  /** The records of a region that does not raise: none for a skipped region,
      one per instance in response order otherwise. */
  function RegionRecords(a: RegionAnswer): (recs: seq<Json>)
    requires !Raises(a)
    ensures a.ClientFailure? ==> recs == []
    ensures a.Described? ==> |recs| == |a.dbs| && forall j :: 0 <= j < |a.dbs| ==> recs[j] == Record(a.dbs[j])
  {
    match a
    case ClientFailure => []
    case Described(dbs) => seq(|dbs|, j requires 0 <= j < |dbs| && Readable(dbs[j]) => Record(dbs[j]))
  }

  /** Every listed region with its records, in listing order. */
  function Visits(regions: seq<(string, RegionAnswer)>): (vs: seq<(string, seq<Json>)>)
    requires forall i :: 0 <= i < |regions| ==> !Raises(regions[i].1)
    ensures |vs| == |regions|
    ensures forall i :: 0 <= i < |regions| ==> vs[i] == (regions[i].0, RegionRecords(regions[i].1))
  {
    seq(|regions|, i requires 0 <= i < |regions| && !Raises(regions[i].1) =>
                     (regions[i].0, RegionRecords(regions[i].1)))
  }

  /** The handler: `describe_regions` either answers or raises. */
  function Handler(listing: Option<seq<(string, RegionAnswer)>>): (inv: Invocation)
    ensures inv.Raised? <==> listing.None? || exists i :: 0 <= i < |listing.value| && Raises(listing.value[i].1)
    ensures inv.Returned? ==> inv.statusCode == 200 && inv.jsonHeader
    ensures inv.Returned? ==> inv.payload == GroupedJson(KeepNonEmpty(Visits(listing.value)))
  {
    match listing
    case None => Raised
    case Some(regions) =>
      if forall i :: 0 <= i < |regions| ==> !Raises(regions[i].1)
      then Returned(200, true, GroupedJson(KeepNonEmpty(Visits(regions))))
      else Raised
  }

  /** A region is a payload key exactly when some visit of it described at
      least one instance; a region skipped for a client error never is. */
  lemma RegionKeyIffInstances(regions: seq<(string, RegionAnswer)>, k: string)
    requires forall i :: 0 <= i < |regions| ==> !Raises(regions[i].1)
    ensures k in Handler(Some(regions)).payload.fields <==>
              exists i :: 0 <= i < |regions| && regions[i].0 == k &&
                regions[i].1.Described? && regions[i].1.dbs != []
  {
    var vs := Visits(regions);
    assert Handler(Some(regions)).payload.fields.Keys == KeepNonEmpty(vs).Keys;
    KeptIffSomeRecords(vs, k);
    if exists i :: 0 <= i < |vs| && vs[i].0 == k && vs[i].1 != [] {
      var i :| 0 <= i < |vs| && vs[i].0 == k && vs[i].1 != [];
      assert regions[i].1.Described?;
    }
    if exists i :: 0 <= i < |regions| && regions[i].0 == k &&
         regions[i].1.Described? && regions[i].1.dbs != [] {
      var i :| 0 <= i < |regions| && regions[i].0 == k &&
         regions[i].1.Described? && regions[i].1.dbs != [];
      assert vs[i].0 == k && vs[i].1 != [];
    }
  }

  /** A region listed once keeps one record per instance, in response order. */
  lemma InstancesKeepOrder(regions: seq<(string, RegionAnswer)>, i: nat)
    requires forall j :: 0 <= j < |regions| ==> !Raises(regions[j].1)
    requires i < |regions| && regions[i].1.Described? && regions[i].1.dbs != []
    requires forall j :: 0 <= j < |regions| && j != i ==> regions[j].0 != regions[i].0
    ensures regions[i].0 in Handler(Some(regions)).payload.fields
    ensures var dbs := regions[i].1.dbs;
            var v := Handler(Some(regions)).payload.fields[regions[i].0];
            v.Arr? && |v.items| == |dbs| && forall j :: 0 <= j < |dbs| ==> v.items[j] == Record(dbs[j])
  {
    LastVisitWins(Visits(regions), i);
  }
}
