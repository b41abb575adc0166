/**
 * End to end: a handler's return value travels to the browser, is decoded by
 * the page's fetch, stored and rendered. The API Gateway integration is taken
 * to pass the handler's returned dict through as the body of an HTTP 200
 * response, which is why the pages decode twice. This is where the EC2
 * payload's `DebugErrors` member meets the instances page, which takes every
 * member for a region.
 */
module Pipeline {
  import opened Types
  import opened Json
  import opened Envelope
  import opened RegionCache
  import opened RegionView
  import opened Lambda
  import opened Pages
  import Ec2
  import S3
  import Eks
  import Rds

  /** The HTTP response text for a handler's returned dict. */
  function ReplyText(c: Codec, inv: Invocation): string
    requires inv.Returned?
  {
    EnvelopeText(c, Others(inv), inv.payload)
  }

  /** Whatever a handler returns reaches the page as exactly its payload. */
  lemma Delivered(c: Codec, inv: Invocation)
    requires Lawful(c) && inv.Returned?
    ensures FetchPayload(c, Response(200, ReplyText(c, inv))) == Ok(inv.payload)
  {
    EnvelopeRoundTrip(c, 200, Others(inv), inv.payload);
  }

  /** The page state once the refresh issued from `p` has been answered with a
      handler's reply. */
  function Refreshed(c: Codec, key: string, p: Page, inv: Invocation): Page
    requires inv.Returned?
  {
    Run(c, key, p, [ClickRefresh, Resolve(Response(200, ReplyText(c, inv)))])
  }

  /** A refresh answered by a handler's reply stores its payload, when truthy,
      as the snapshot and in storage. */
  lemma RefreshStoresPayload(c: Codec, key: string, p: Page, inv: Invocation)
    requires Lawful(c) && inv.Returned? && !p.inFlight && Truthy(inv.payload)
    ensures Refreshed(c, key, p, inv).cache.snapshot == inv.payload
    ensures Mount(c, key, Refreshed(c, key, p, inv).cache.store, None).snapshot == inv.payload
  {
    Delivered(c, inv);
    var q := Step(c, key, p, ClickRefresh);
    assert q.inFlight;
    var r := Step(c, key, q, Resolve(Response(200, ReplyText(c, inv))));
    var es := [ClickRefresh, Resolve(Response(200, ReplyText(c, inv)))];
    assert es[0] == ClickRefresh && es[1..][0] == es[1];
    assert es[1..][1..] == [];
    assert Run(c, key, q, es[1..]) == Run(c, key, r, []);
    ReloadRestoresFetchedData(c, key, q.cache, inv.payload);
  }

  /** An object all of whose members are strings cannot be rendered as a
      section: its `.length` is not 0, so `.map` is called on an object. */
  lemma NonRecordObjectThrows(d: Json, cells: set<string>)
    requires d.Obj? && forall k :: k in d.fields ==> d.fields[k].Str?
    ensures SectionRows(d, cells).None?
  {
  }

  /** The EC2 payload with a failed region crashes the instances page as
      written: `DebugErrors` is taken for a region and `.map` is called on an
      object. */
  lemma DebugErrorsBreakRender(regions: seq<(string, Ec2.RegionScan)>, i: nat)
    requires i < |regions| && Ec2.ScanRegion(regions[i].0, regions[i].1).Err?
    ensures RenderAsWritten(Ec2.Payload(regions), Cells(Instances)).None?
  {
    var payload := Ec2.Payload(regions);
    Ec2.DebugErrorsIsObject(regions, i);
    var d := payload.fields[Ec2.DebugKey];
    NonRecordObjectThrows(d, Cells(Instances));
    ThrowingMemberBreaksRender(payload, Cells(Instances), Ec2.DebugKey);
  }

  /** The crash survives a reload: the payload is persisted, so every later
      mount of the instances page throws again. That holds whether the query
      client comes back empty, so that the page hydrates from its own key, or
      comes back holding the same payload, which the data effect then applies. */
  lemma DebugErrorsCrashPersists(c: Codec, p: Page, regions: seq<(string, Ec2.RegionScan)>, i: nat, retained: Option<Json>)
    requires Lawful(c) && !p.inFlight
    requires i < |regions| && Ec2.ScanRegion(regions[i].0, regions[i].1).Err?
    requires retained.None? || retained == Some(Ec2.Handler(Ec2.Listed(regions)).payload)
    ensures var key := StorageKey(Instances);
            var inv := Ec2.Handler(Ec2.Listed(regions));
            RenderAsWritten(Refreshed(c, key, p, inv).cache.snapshot, Cells(Instances)).None? &&
            RenderAsWritten(Mount(c, key, Refreshed(c, key, p, inv).cache.store, retained).snapshot, Cells(Instances)).None?
  {
    var key := StorageKey(Instances);
    var inv := Ec2.Handler(Ec2.Listed(regions));
    RefreshStoresPayload(c, key, p, inv);
    Ec2.DebugErrorsIsObject(regions, i);
    assert Truthy(inv.payload);
    DebugErrorsBreakRender(regions, i);
  }

  /** The region-listing failure payload crashes the page as well: its
      `Error` string is taken for a region and `.map` is called on a string. */
  lemma ListingFailureBreaksRender(details: string)
    ensures RenderAsWritten(Ec2.Handler(Ec2.ListingFailed(details)).payload, Cells(Instances)).None?
  {
    var payload := Ec2.Handler(Ec2.ListingFailed(details)).payload;
    assert payload.fields["Error"] == Str("Failed to retrieve regions");
    ThrowingMemberBreaksRender(payload, Cells(Instances), "Error");
  }

  /** One region, `ap-south-1`, whose endpoint cannot be reached. */
  function UnreachableRegion(): seq<(string, Ec2.RegionScan)> {
    [("ap-south-1", Ec2.RegionScan([], Some(Ec2.EndpointFault)))]
  }

  /** Concretely: with a single unreachable region the payload is
      `{"DebugErrors": {"ap-south-1": "EndpointConnectionError: ..."}}`, and the
      page as written throws on it. */
  lemma UnreachableRegionBreaksRender()
    ensures Ec2.Payload(UnreachableRegion()) ==
              Obj(map[Ec2.DebugKey := Obj(map["ap-south-1" := Str("EndpointConnectionError: Could not connect to EC2 endpoint.")])])
    ensures RenderAsWritten(Ec2.Payload(UnreachableRegion()), Cells(Instances)).None?
  {
    var regions := UnreachableRegion();
    assert Ec2.Flatten([]) == [];
    assert Ec2.ScanRegion("ap-south-1", regions[0].1) == Err("EndpointConnectionError: Could not connect to EC2 endpoint.");
    assert Ec2.Visits(regions) == [("ap-south-1", [])];
    assert KeepNonEmpty(Ec2.Visits(regions)) == map[];
    var msg := "EndpointConnectionError: Could not connect to EC2 endpoint.";
    var errs := Ec2.Errors(regions);
    assert errs == map["ap-south-1" := msg];
    assert GroupedJson(map[]) == Obj(map[]);
    var d := map k | k in errs :: Str(errs[k]);
    assert d == map["ap-south-1" := Str(msg)];
    assert Ec2.Payload(regions) == Obj(map[][Ec2.DebugKey := Obj(d)]);
    DebugErrorsBreakRender(regions, 0);
  }

  /** The corrected page shows exactly the regions that have instances, never
      `DebugErrors`, with their records as rows. */
  lemma CorrectedShowsRegionsOnly(regions: seq<(string, Ec2.RegionScan)>, r: string)
    requires Ec2.NoDebugRegion(regions)
    ensures Name(Ec2.DebugKey) !in RegionSections(Ec2.Payload(regions))
    ensures r != Ec2.DebugKey ==>
              (Name(r) in RegionSections(Ec2.Payload(regions)) <==> r in Ec2.Payload(regions).fields)
  {
    var payload := Ec2.Payload(regions);
    Ec2.DebugMemberIsErrorMap(regions);
    ObjectEntries(payload);
    assert Name(Ec2.DebugKey) in Entries(payload) ==> !IsRecordList(Entries(payload)[Name(Ec2.DebugKey)]);
    if r != Ec2.DebugKey {
      Ec2.PayloadRegionMember(regions, r);
      assert r in payload.fields ==> IsRecordList(Entries(payload)[Name(r)]);
    }
  }

  /** A payload of flat string records renders, as written, exactly as the
      corrected page does, whatever cells the page shows: the finding is
      confined to members that are not record lists. */
  lemma RecordPayloadRenders(m: Grouped, cells: set<string>)
    requires forall k, j :: k in m && 0 <= j < |m[k]| ==> StringRecord(m[k][j])
    ensures RenderAsWritten(GroupedJson(m), cells) == Some(RegionSections(GroupedJson(m)))
  {
    var v := GroupedJson(m);
    ObjectEntries(v);
    forall k | k in Entries(v)
      ensures IsRecordList(Entries(v)[k])
      ensures forall i :: 0 <= i < |Entries(v)[k].items| ==> RowRenders(Entries(v)[k].items[i], cells)
    {
      assert k.Name? && k.name in m && Entries(v)[k] == Arr(m[k.name]);
    }
    CorrectedAgreesOnRecordLists(v, cells);
  }

  /** The buckets, clusters and databases pages never throw on what their
      handlers return. */
  lemma OtherPagesRender(
      buckets: seq<S3.RawBucket>,
      clusters: seq<(string, Eks.RegionAnswer)>,
      dbs: seq<(string, Rds.RegionAnswer)>)
    requires forall i :: 0 <= i < |buckets| ==> S3.Readable(buckets[i])
    requires forall i :: 0 <= i < |dbs| ==> !Rds.Raises(dbs[i].1)
    ensures RenderAsWritten(S3.Handler(Some(buckets)).payload, Cells(Buckets)).Some?
    ensures RenderAsWritten(Eks.Handler(Some(clusters)).payload, Cells(Clusters)).Some?
    ensures RenderAsWritten(Rds.Handler(Some(dbs)).payload, Cells(Databases)).Some?
  {
    var s: Grouped := S3.Group(S3.Tagged(buckets));
    forall k: string, j: int | k in s && 0 <= j < |s[k]| ensures StringRecord(s[k][j]) {
      S3.GroupIsFilter(S3.Tagged(buckets), k);
      FilterHoldsInfos(buckets, S3.Tagged(buckets), k, j);
    }
    RecordPayloadRenders(s, Cells(Buckets));
    var e: Grouped := KeepNonEmpty(Eks.Visits(clusters));
    forall k: string, j: int | k in e && 0 <= j < |e[k]| ensures StringRecord(e[k][j]) {
      var i :| 0 <= i < |Eks.Visits(clusters)| && Eks.Visits(clusters)[i] == (k, e[k]);
      EksRecordsAreFlat(clusters[i].0, clusters[i].1.described);
    }
    RecordPayloadRenders(e, Cells(Clusters));
    var d: Grouped := KeepNonEmpty(Rds.Visits(dbs));
    forall k: string, j: int | k in d && 0 <= j < |d[k]| ensures StringRecord(d[k][j]) {
      var i :| 0 <= i < |Rds.Visits(dbs)| && Rds.Visits(dbs)[i] == (k, d[k]);
    }
    RecordPayloadRenders(d, Cells(Databases));
  }

  lemma {:induction false} FilterHoldsInfos(bs: seq<S3.RawBucket>, ps: seq<(string, Json)>, r: string, j: nat)
    requires |ps| == |bs|
    requires forall i :: 0 <= i < |bs| ==> S3.Readable(bs[i]) && ps[i] == (S3.Region(bs[i]), S3.Info(bs[i]))
    requires j < |S3.Filter(ps, r)|
    ensures StringRecord(S3.Filter(ps, r)[j])
    decreases |ps|
  {
    var n := |ps| - 1;
    if j < |S3.Filter(ps[..n], r)| {
      FilterHoldsInfos(bs[..n], ps[..n], r, j);
    }
  }

  lemma {:induction false} EksRecordsAreFlat(region: string, described: seq<Option<Eks.RawCluster>>)
    ensures forall j :: 0 <= j < |Eks.Records(region, described)| ==> StringRecord(Eks.Records(region, described)[j])
    decreases |described|
  {
    if described != [] {
      EksRecordsAreFlat(region, described[1..]);
    }
  }

  // ---------------------------------------------------------------------------
  // Row colours of the records the handlers produce
  // ---------------------------------------------------------------------------

  /** An instance row is green exactly when its `State.Name` is `running`. */
  lemma InstanceRowTone(region: string, raw: Ec2.RawInstance)
    requires Ec2.Shape(region, raw).Ok?
    ensures InstanceTone(Ec2.Shape(region, raw).value) == Green <==> raw.stateName == Some("running")
  {
  }

  /** A database row is green exactly when its `DBInstanceStatus` is `available`. */
  lemma DatabaseRowTone(db: Rds.RawDb)
    requires Rds.Readable(db)
    ensures DatabaseTone(Rds.Record(db)) == Green <==> db.status == Some("available")
  {
  }

  /** A cluster row is green exactly when its status is `ACTIVE` or `active`;
      a cluster without a status reads `N/A` and is red. */
  lemma ClusterRowTone(region: string, cluster: Eks.RawCluster)
    ensures ClusterTone(Eks.Record(region, cluster)) == Green <==>
              cluster.status == Some("ACTIVE") || cluster.status == Some("active")
    ensures cluster.status.None? ==> ClusterTone(Eks.Record(region, cluster)) == Red
  {
  }
}
