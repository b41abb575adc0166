/**
 * The EKS listing handler. It lists the regions, then in each region lists
 * the clusters and describes each one. A region whose cluster listing raises
 * is skipped. A cluster whose description raises is dropped, and the region's
 * other clusters are kept. Only the region listing itself is unguarded. The
 * AWS answers are inputs.
 */
module Eks {
  import opened Types
  import opened Json
  import opened Lambda

  /** `describe_cluster(...)['cluster']`; a member it lacks is `None`.
      `createdAt` is the formatted creation time. */
  datatype RawCluster = RawCluster(
    name: Option<string>,
    status: Option<string>,
    version: Option<string>,
    arn: Option<string>,
    createdAt: Option<string>,
    endpoint: Option<string>)

  /** One region's answers: `list_clusters` raised, or each listed cluster's
      description, `None` where `describe_cluster` (or its `['cluster']`)
      raised. */
  datatype RegionAnswer = Unavailable | Listed(described: seq<Option<RawCluster>>)

  /** The record of one described cluster. */
  function Record(region: string, c: RawCluster): (rec: Json)
    ensures Field(rec, "Region") == Some(Str(region))
    ensures Field(rec, "Status") == Some(Str(c.status.GetOr("N/A")))
    ensures Field(rec, "CreatedAt") == Some(Str(c.createdAt.GetOr("N/A")))
    ensures Field(rec, "Name") == Some(Str(c.name.GetOr("N/A")))
    ensures Field(rec, "Version") == Some(Str(c.version.GetOr("N/A")))
    ensures Field(rec, "Arn") == Some(Str(c.arn.GetOr("N/A")))
    ensures Field(rec, "Endpoint") == Some(Str(c.endpoint.GetOr("N/A")))
    ensures StringRecord(rec)
  {
    Obj(map[
      "Name" := Str(c.name.GetOr("N/A")),
      "Status" := Str(c.status.GetOr("N/A")),
      "Version" := Str(c.version.GetOr("N/A")),
      "Arn" := Str(c.arn.GetOr("N/A")),
      "CreatedAt" := Str(c.createdAt.GetOr("N/A")),
      "Endpoint" := Str(c.endpoint.GetOr("N/A")),
      "Region" := Str(region)])
  }

  /** Number of clusters that could be described. */
  function Describable(described: seq<Option<RawCluster>>): nat
    decreases |described|
  {
    if described == [] then 0 else (if described[0].Some? then 1 else 0) + Describable(described[1..])
  }

  /** Reference definition: the clusters that could be described, in listing
      order. */
  function DescribedClusters(described: seq<Option<RawCluster>>): (cs: seq<RawCluster>)
    ensures |cs| == Describable(described)
    ensures forall c :: c in cs <==> Some(c) in described
    ensures (forall i :: 0 <= i < |described| ==> described[i].Some?) ==>
              |cs| == |described| && forall i :: 0 <= i < |described| ==> cs[i] == described[i].value
    decreases |described|
  {
    if described == [] then []
    else
      (match described[0] case Some(c) => [c] case None => [])
        + DescribedClusters(described[1..])
  }

  /** The records of the clusters that could be described, in listing order:
      one record per described cluster, in the same order. */
  function Records(region: string, described: seq<Option<RawCluster>>): (recs: seq<Json>)
    ensures |recs| == Describable(described)
    ensures forall j :: 0 <= j < |recs| ==> recs[j] == Record(region, DescribedClusters(described)[j])
    ensures forall j :: 0 <= j < |recs| ==> Field(recs[j], "Region") == Some(Str(region))
    decreases |described|
  {
    if described == [] then []
    else
      (match described[0] case Some(c) => [Record(region, c)] case None => [])
        + Records(region, described[1..])
  }

  /** A region's records; a region whose listing raised has none. */
  function RegionRecords(region: string, a: RegionAnswer): (recs: seq<Json>)
    ensures a.Unavailable? ==> recs == []
    ensures a.Listed? ==> |recs| == Describable(a.described)
  {
    match a
    case Unavailable => []
    case Listed(described) => Records(region, described)
  }

  /** A cluster that fails to describe is dropped and nothing else is:
      the region's records are those of the same listing without it. */
  lemma {:induction false} FailedDescribeDropsOnlyThatCluster(
      region: string, before: seq<Option<RawCluster>>, after: seq<Option<RawCluster>>)
    ensures Records(region, before + [None] + after) == Records(region, before + after)
    decreases |before|
  {
    if before == [] {
      var all := before + [None] + after;
      assert all == [None] + after;
      assert all[0] == None && all[1..] == after;
      assert before + after == after;
    } else {
      assert (before + [None] + after)[1..] == before[1..] + [None] + after;
      assert (before + after)[1..] == before[1..] + after;
      FailedDescribeDropsOnlyThatCluster(region, before[1..], after);
    }
  }

  /** Every listed region with its records, in listing order. */
  function Visits(regions: seq<(string, RegionAnswer)>): (vs: seq<(string, seq<Json>)>)
    ensures |vs| == |regions|
    ensures forall i :: 0 <= i < |regions| ==> vs[i] == (regions[i].0, RegionRecords(regions[i].0, regions[i].1))
  {
    seq(|regions|, i requires 0 <= i < |regions| => (regions[i].0, RegionRecords(regions[i].0, regions[i].1)))
  }

  /** The handler: `describe_regions` either answers or raises. */
  function Handler(listing: Option<seq<(string, RegionAnswer)>>): (inv: Invocation)
    ensures inv.Raised? <==> listing.None?
    ensures inv.Returned? ==> inv.statusCode == 200 && inv.jsonHeader
    ensures inv.Returned? ==> inv.payload == GroupedJson(KeepNonEmpty(Visits(listing.value)))
  {
    match listing
    case None => Raised
    case Some(regions) => Returned(200, true, GroupedJson(KeepNonEmpty(Visits(regions))))
  }

  /** A region is a payload key exactly when some visit of it described at
      least one cluster; a region whose listing raised never is. */
  lemma RegionKeyIffClusters(regions: seq<(string, RegionAnswer)>, k: string)
    ensures k in Handler(Some(regions)).payload.fields <==>
              exists i :: 0 <= i < |regions| && regions[i].0 == k &&
                regions[i].1.Listed? && Describable(regions[i].1.described) > 0
  {
    var vs := Visits(regions);
    KeptIffSomeRecords(vs, k);
    if exists i :: 0 <= i < |vs| && vs[i].0 == k && vs[i].1 != [] {
      var i :| 0 <= i < |vs| && vs[i].0 == k && vs[i].1 != [];
      assert regions[i].1.Listed?;
    }
    if exists i :: 0 <= i < |regions| && regions[i].0 == k &&
         regions[i].1.Listed? && Describable(regions[i].1.described) > 0 {
      var i :| 0 <= i < |regions| && regions[i].0 == k &&
         regions[i].1.Listed? && Describable(regions[i].1.described) > 0;
      assert vs[i].0 == k && vs[i].1 != [];
    }
  }

  /** Every record under a region key names that region. */
  lemma RecordsNameTheirRegion(regions: seq<(string, RegionAnswer)>, k: string)
    requires k in Handler(Some(regions)).payload.fields
    ensures var v := Handler(Some(regions)).payload.fields[k];
            v.Arr? && v.items != [] &&
            forall j :: 0 <= j < |v.items| ==> Field(v.items[j], "Region") == Some(Str(k))
  {
    var vs := Visits(regions);
    forall i, j | 0 <= i < |vs| && 0 <= j < |vs[i].1|
      ensures Field(vs[i].1[j], "Region") == Some(Str(vs[i].0))
    {
      assert regions[i].1.Listed?;
    }
    RecordsCarryRegion(vs);
  }
}
