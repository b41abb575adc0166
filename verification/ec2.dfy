/**
 * The EC2 listing handler. It lists the regions, walks each region's
 * paginated `describe_instances` result, and shapes every instance into a
 * flat record. A region whose walk raises contributes no instances, not even
 * the ones collected before the exception, and gets a message in an error
 * map. That map is attached to the payload as `DebugErrors` when it is not
 * empty. The AWS calls are inputs: the region list, and for each region the
 * pages fetched before the paginator stopped, with the exception that
 * stopped it, if any.
 */
module Ec2 {
  import opened Types
  import opened Json
  import opened Lambda

  /** One entry of an instance's `Tags`; a member the response lacks is `None`. */
  datatype Tag = Tag(key: Option<string>, value: Option<string>)

  /** An instance as `describe_instances` describes it. An absent `Tags` list
      reads as empty. `launchTime` is the formatted launch time when the field
      is a datetime and `None` otherwise. `stateName` is `State.Name`, `None`
      when either level is missing. */
  datatype RawInstance = RawInstance(
    tags: seq<Tag>,
    launchTime: Option<string>,
    instanceId: Option<string>,
    instanceType: Option<string>,
    stateName: Option<string>)

  /** The exceptions the region loop tells apart. */
  datatype Fault =
    | ClientFault(code: string, message: string)
    | EndpointFault
    | OtherFault(text: string)

  /** The message recorded for a failed region. The three opt-in and
      permission codes get the same message as every other client error. */
  function FaultMessage(f: Fault): string {
    match f
    case ClientFault(code, message) => "ClientError: " + code + " - " + message
    case EndpointFault => "EndpointConnectionError: Could not connect to EC2 endpoint."
    case OtherFault(text) => "Unknown Error: " + text
  }

  /** The `Name` tag's value: the first tag whose key is `Name`, else `'N/A'`.
      Reading `tag['Key']` of a tag without a key, or `tag['Value']` of the
      matching tag without a value, raises a KeyError (its text is the quoted
      key). */
  function NameTag(tags: seq<Tag>): Result<string, string>
    decreases |tags|
  {
    if tags == [] then Ok("N/A")
    else if tags[0].key.None? then Err("'Key'")
    else if tags[0].key.value == "Name" then
      if tags[0].value.None? then Err("'Value'") else Ok(tags[0].value.value)
    else NameTag(tags[1..])
  }

  /** Tags as AWS returns them: every tag has a key and a value. */
  predicate WellFormedTags(tags: seq<Tag>) {
    forall j :: 0 <= j < |tags| ==> tags[j].key.Some? && tags[j].value.Some?
  }

  /** With well-formed tags, the name is the value of the first `Name` tag. */
  lemma {:induction false} NameTagIsFirst(tags: seq<Tag>, i: nat)
    requires WellFormedTags(tags)
    requires i < |tags| && tags[i].key == Some("Name")
    requires forall j :: 0 <= j < i ==> tags[j].key != Some("Name")
    ensures NameTag(tags) == Ok(tags[i].value.value)
    decreases i
  {
    if i > 0 {
      NameTagIsFirst(tags[1..], i - 1);
    }
  }

  /** With well-formed tags and none keyed `Name`, the name is `'N/A'`. */
  lemma {:induction false} NameTagDefault(tags: seq<Tag>)
    requires WellFormedTags(tags)
    requires forall j :: 0 <= j < |tags| ==> tags[j].key != Some("Name")
    ensures NameTag(tags) == Ok("N/A")
    decreases |tags|
  {
    if tags != [] {
      NameTagDefault(tags[1..]);
    }
  }

  /** The record one instance becomes, or the text of the KeyError raised
      while building it. */
  function Shape(region: string, raw: RawInstance): (r: Result<Json, string>)
    ensures r.Ok? <==> NameTag(raw.tags).Ok?
    ensures r.Ok? ==> StringRecord(r.value)
    ensures r.Ok? ==> Field(r.value, "Region") == Some(Str(region))
    ensures r.Ok? ==> Field(r.value, "Name") == Some(Str(NameTag(raw.tags).value))
    ensures r.Ok? ==> Field(r.value, "State") == Some(Str(raw.stateName.GetOr("N/A")))
    ensures r.Ok? ==> Field(r.value, "InstanceId") == Some(Str(raw.instanceId.GetOr("N/A")))
    ensures r.Ok? ==> Field(r.value, "Type") == Some(Str(raw.instanceType.GetOr("N/A")))
    ensures r.Ok? ==> Field(r.value, "LaunchTime") == Some(Str(raw.launchTime.GetOr("N/A")))
  {
    match NameTag(raw.tags)
    case Err(t) => Err(t)
    case Ok(name) =>
      Ok(Obj(map[
        "Name" := Str(name),
        "InstanceId" := Str(raw.instanceId.GetOr("N/A")),
        "Type" := Str(raw.instanceType.GetOr("N/A")),
        "State" := Str(raw.stateName.GetOr("N/A")),
        "LaunchTime" := Str(raw.launchTime.GetOr("N/A")),
        "Region" := Str(region)]))
  }

  /** Instances of pages of reservations, in page, reservation and instance order. */
  function Flatten(pages: seq<seq<seq<RawInstance>>>): seq<RawInstance>
    decreases |pages|
  {
    if pages == [] then [] else Concat(pages[0]) + Flatten(pages[1..])
  }

  function Concat(reservations: seq<seq<RawInstance>>): seq<RawInstance>
    decreases |reservations|
  {
    if reservations == [] then [] else reservations[0] + Concat(reservations[1..])
  }

  /** Shaping the instances in order, stopping at the first KeyError. */
  function ShapeAll(region: string, raws: seq<RawInstance>): (r: Result<seq<Json>, string>)
    ensures r.Ok? <==> forall j :: 0 <= j < |raws| ==> Shape(region, raws[j]).Ok?
    ensures r.Ok? ==> |r.value| == |raws| && forall j :: 0 <= j < |raws| ==> Ok(r.value[j]) == Shape(region, raws[j])
    decreases |raws|
  {
    if raws == [] then Ok([])
    else
      match Shape(region, raws[0])
      case Err(t) => Err(t)
      case Ok(rec) =>
        match ShapeAll(region, raws[1..])
        case Err(t) => Err(t)
        case Ok(rest) => Ok([rec] + rest)
  }

  /** What the paginator produced for one region: the pages it delivered, and
      the exception that stopped it, if one did. */
  datatype RegionScan = RegionScan(pages: seq<seq<seq<RawInstance>>>, fault: Option<Fault>)

  /** One region's outcome: its records, or the message recorded for it. A
      KeyError while shaping comes first, as it is raised before the
      paginator fetches the page that fails. */
  function ScanRegion(region: string, scan: RegionScan): (r: Result<seq<Json>, string>)
    ensures r.Ok? <==> scan.fault.None? && ShapeAll(region, Flatten(scan.pages)).Ok?
    ensures r.Ok? ==> r == ShapeAll(region, Flatten(scan.pages))
    ensures ShapeAll(region, Flatten(scan.pages)).Ok? && scan.fault.Some? ==> r == Err(FaultMessage(scan.fault.value))
    ensures ShapeAll(region, Flatten(scan.pages)).Err? ==>
              r == Err("Unknown Error: " + ShapeAll(region, Flatten(scan.pages)).error)
  {
    match ShapeAll(region, Flatten(scan.pages))
    case Err(t) => Err(FaultMessage(OtherFault(t)))
    case Ok(records) =>
      match scan.fault
      case Some(f) => Err(FaultMessage(f))
      case None => Ok(records)
  }

  /** The records a visit adds to the result: none for a failed region. */
  function Found(o: Result<seq<Json>, string>): seq<Json> {
    if o.Ok? then o.value else []
  }

  /** Every listed region with its outcome, in listing order. */
  function Visits(regions: seq<(string, RegionScan)>): (vs: seq<(string, seq<Json>)>)
    ensures |vs| == |regions|
    ensures forall i :: 0 <= i < |regions| ==> vs[i] == (regions[i].0, Found(ScanRegion(regions[i].0, regions[i].1)))
  {
    seq(|regions|, i requires 0 <= i < |regions| => (regions[i].0, Found(ScanRegion(regions[i].0, regions[i].1))))
  }

  /** Visit `i` is the last failed visit of region `k`: it failed, and every
      later visit of `k` succeeded. */
  predicate LastFailureAt(regions: seq<(string, RegionScan)>, k: string, i: int) {
    0 <= i < |regions| && regions[i].0 == k && ScanRegion(k, regions[i].1).Err? &&
    forall j :: i < j < |regions| && regions[j].0 == k ==> ScanRegion(k, regions[j].1).Ok?
  }

  /** A last failure of a prefix stays the last failure when the next visit
      is of another region or succeeds. */
  lemma LastFailureExtends(regions: seq<(string, RegionScan)>, k: string, i: int)
    requires |regions| > 0
    requires LastFailureAt(regions[..|regions| - 1], k, i)
    requires regions[|regions| - 1].0 != k || ScanRegion(k, regions[|regions| - 1].1).Ok?
    ensures LastFailureAt(regions, k, i)
    ensures regions[..|regions| - 1][i] == regions[i]
  {
    var n := |regions| - 1;
    forall j | i < j < |regions| && regions[j].0 == k
      ensures ScanRegion(k, regions[j].1).Ok?
    {
      if j < n {
        assert regions[..n][j] == regions[j];
      }
    }
  }

  /** One more visit adds its region to the failed ones exactly when it fails. */
  lemma FailedKeysExtend(prefix: seq<(string, RegionScan)>, last: (string, RegionScan), earlier: map<string, string>)
    requires forall k :: k in earlier <==>
               exists i :: 0 <= i < |prefix| && prefix[i].0 == k && ScanRegion(k, prefix[i].1).Err?
    ensures var o := ScanRegion(last.0, last.1);
            var errs := if o.Err? then earlier[last.0 := o.error] else earlier;
            var regions := prefix + [last];
            forall k :: k in errs <==>
              exists i :: 0 <= i < |regions| && regions[i].0 == k && ScanRegion(k, regions[i].1).Err?
  {
    var regions := prefix + [last];
    assert forall i :: 0 <= i < |prefix| ==> regions[i] == prefix[i];
    assert regions[|prefix|] == last;
  }

  /** One more visit keeps every recorded message the last failure's: a
      failed visit records its own, and any other leaves the map alone. */
  lemma LastFailuresExtend(prefix: seq<(string, RegionScan)>, last: (string, RegionScan), earlier: map<string, string>)
    requires forall k :: k in earlier ==>
               exists i :: LastFailureAt(prefix, k, i) && earlier[k] == ScanRegion(k, prefix[i].1).error
    ensures var o := ScanRegion(last.0, last.1);
            var errs := if o.Err? then earlier[last.0 := o.error] else earlier;
            forall k :: k in errs ==>
              exists i :: LastFailureAt(prefix + [last], k, i) && errs[k] == ScanRegion(k, (prefix + [last])[i].1).error
  {
    var regions := prefix + [last];
    var n := |prefix|;
    assert regions[..n] == prefix;
    var o := ScanRegion(last.0, last.1);
    var errs := if o.Err? then earlier[last.0 := o.error] else earlier;
    forall k | k in errs
      ensures exists i :: LastFailureAt(regions, k, i) && errs[k] == ScanRegion(k, regions[i].1).error
    {
      if o.Err? && k == last.0 {
        assert LastFailureAt(regions, k, n);
      } else {
        var i :| LastFailureAt(prefix, k, i) && earlier[k] == ScanRegion(k, prefix[i].1).error;
        LastFailureExtends(regions, k, i);
      }
    }
  }

  /** The error map: each failed region's message, the last one for a name
      visited more than once. A later successful visit does not clear it. */
  function Errors(regions: seq<(string, RegionScan)>): (errs: map<string, string>)
    ensures forall k :: k in errs <==>
              exists i :: 0 <= i < |regions| && regions[i].0 == k && ScanRegion(k, regions[i].1).Err?
    ensures forall k :: k in errs ==>
              exists i :: LastFailureAt(regions, k, i) && errs[k] == ScanRegion(k, regions[i].1).error
    decreases |regions|
  {
    if regions == [] then map[]
    else
      var prefix := regions[..|regions| - 1];
      var last := regions[|regions| - 1];
      assert regions == prefix + [last];
      var earlier := Errors(prefix);
      FailedKeysExtend(prefix, last, earlier);
      LastFailuresExtend(prefix, last, earlier);
      var o := ScanRegion(last.0, last.1);
      if o.Err? then earlier[last.0 := o.error] else earlier
  }

  /** The key the error map is attached under. */
  const DebugKey: string := "DebugErrors"

  /** The success payload: the regions with instances, plus `DebugErrors` when
      some region failed. */
  function Payload(regions: seq<(string, RegionScan)>): Json {
    var found := GroupedJson(KeepNonEmpty(Visits(regions)));
    var errs := Errors(regions);
    if errs == map[] then found
    else Obj(found.fields[DebugKey := Obj(map k | k in errs :: Str(errs[k]))])
  }

  /** What the region listing produced: its exception's text, or the regions
      with what scanning each of them produced. */
  datatype Input = ListingFailed(details: string) | Listed(regions: seq<(string, RegionScan)>)

  /** The handler. */
  function Handler(input: Input): (inv: Invocation)
    ensures inv.Returned?
    ensures inv.statusCode == 500 <==> input.ListingFailed?
    ensures inv.statusCode == 200 <==> input.Listed?
    ensures inv.jsonHeader <==> input.Listed?
    ensures input.ListingFailed? ==>
              inv.payload == Obj(map["Error" := Str("Failed to retrieve regions"), "Details" := Str(input.details)])
    ensures input.Listed? ==> inv.payload == Payload(input.regions)
  {
    match input
    case ListingFailed(details) =>
      Returned(500, false, Obj(map["Error" := Str("Failed to retrieve regions"), "Details" := Str(details)]))
    case Listed(regions) => Returned(200, true, Payload(regions))
  }

  /** No region named like the diagnostic key. */
  predicate NoDebugRegion(regions: seq<(string, RegionScan)>) {
    forall i :: 0 <= i < |regions| ==> regions[i].0 != DebugKey
  }

  /** A payload member other than `DebugErrors` is a region of the result map. */
  lemma PayloadRegionMember(regions: seq<(string, RegionScan)>, k: string)
    requires k != DebugKey
    ensures var m := KeepNonEmpty(Visits(regions));
            (k in Payload(regions).fields <==> k in m) &&
            (k in m ==> Payload(regions).fields[k] == Arr(m[k]))
  {
    var found := GroupedJson(KeepNonEmpty(Visits(regions)));
    var errs := Errors(regions);
    if errs != map[] {
      var d := Obj(map e | e in errs :: Str(errs[e]));
      assert Payload(regions) == Obj(found.fields[DebugKey := d]);
    }
  }

  /** A region is a payload key exactly when some visit of it succeeded with at
      least one instance: a failure discards what the region had collected. */
  lemma RegionKeyIffInstances(regions: seq<(string, RegionScan)>, k: string)
    requires k != DebugKey
    ensures k in Payload(regions).fields <==>
              exists i :: 0 <= i < |regions| && regions[i].0 == k &&
                ScanRegion(k, regions[i].1).Ok? && ScanRegion(k, regions[i].1).value != []
  {
    var vs := Visits(regions);
    PayloadRegionMember(regions, k);
    KeptIffSomeRecords(vs, k);
    if exists i :: 0 <= i < |vs| && vs[i].0 == k && vs[i].1 != [] {
      var i :| 0 <= i < |vs| && vs[i].0 == k && vs[i].1 != [];
      assert regions[i].0 == k && ScanRegion(k, regions[i].1).Ok?;
    }
    if exists i :: 0 <= i < |regions| && regions[i].0 == k &&
         ScanRegion(k, regions[i].1).Ok? && ScanRegion(k, regions[i].1).value != [] {
      var i :| 0 <= i < |regions| && regions[i].0 == k &&
         ScanRegion(k, regions[i].1).Ok? && ScanRegion(k, regions[i].1).value != [];
      assert vs[i].0 == k && vs[i].1 != [];
    }
  }

  /** `DebugErrors` is in the payload exactly when some region failed. */
  lemma DebugErrorsIffFailure(regions: seq<(string, RegionScan)>)
    requires NoDebugRegion(regions)
    ensures DebugKey in Payload(regions).fields <==>
              exists i :: 0 <= i < |regions| && ScanRegion(regions[i].0, regions[i].1).Err?
  {
    var vs := Visits(regions);
    KeptIffSomeRecords(vs, DebugKey);
    var errs := Errors(regions);
    if exists i :: 0 <= i < |regions| && ScanRegion(regions[i].0, regions[i].1).Err? {
      var i :| 0 <= i < |regions| && ScanRegion(regions[i].0, regions[i].1).Err?;
      assert regions[i].0 in errs;
    }
  }

  /** When some region failed, the payload's `DebugErrors` member is an object
      mapping each failed region to its message. */
  lemma DebugErrorsIsObject(regions: seq<(string, RegionScan)>, i: nat)
    requires i < |regions| && ScanRegion(regions[i].0, regions[i].1).Err?
    ensures Payload(regions).Obj? && DebugKey in Payload(regions).fields
    ensures var d := Payload(regions).fields[DebugKey];
            d.Obj? && regions[i].0 in d.fields &&
            forall k :: k in d.fields ==> d.fields[k].Str?
  {
    assert regions[i].0 in Errors(regions);
  }

  /** The `DebugErrors` member holds, for a region, the message of its last
      failed visit, even when a later visit of it succeeded. */
  lemma DebugErrorsHoldLastMessage(regions: seq<(string, RegionScan)>, k: string, i: int)
    requires LastFailureAt(regions, k, i)
    ensures Payload(regions).Obj? && DebugKey in Payload(regions).fields
    ensures var d := Payload(regions).fields[DebugKey];
            d.Obj? && k in d.fields && d.fields[k] == Str(ScanRegion(k, regions[i].1).error)
  {
    var errs := Errors(regions);
    assert k in errs;
    var i' :| LastFailureAt(regions, k, i') && errs[k] == ScanRegion(k, regions[i'].1).error;
    assert i' == i;
  }

  /** The payload is an object whose `DebugErrors` member, when present and no
      region carries that name, maps region names to messages. */
  lemma DebugMemberIsErrorMap(regions: seq<(string, RegionScan)>)
    requires NoDebugRegion(regions)
    ensures Payload(regions).Obj?
    ensures DebugKey in Payload(regions).fields ==>
              var d := Payload(regions).fields[DebugKey];
              d.Obj? && forall k :: k in d.fields ==> d.fields[k].Str?
  {
    KeptIffSomeRecords(Visits(regions), DebugKey);
    PayloadRegionMember(regions, "");
  }

  /** Every record under a region key names that region. */
  lemma RecordsNameTheirRegion(regions: seq<(string, RegionScan)>, k: string)
    requires k != DebugKey && k in Payload(regions).fields
    ensures var v := Payload(regions).fields[k];
            v.Arr? && v.items != [] &&
            forall j :: 0 <= j < |v.items| ==> Field(v.items[j], "Region") == Some(Str(k))
  {
    var vs := Visits(regions);
    forall i, j | 0 <= i < |vs| && 0 <= j < |vs[i].1|
      ensures Field(vs[i].1[j], "Region") == Some(Str(vs[i].0))
    {
      var o := ScanRegion(regions[i].0, regions[i].1);
      assert o.Ok?;
      assert Shape(regions[i].0, Flatten(regions[i].1.pages)[j]) == Ok(vs[i].1[j]);
    }
    RecordsCarryRegion(vs);
    PayloadRegionMember(regions, k);
  }

  /** A region visited once, whose scan succeeded, lists one record per
      instance in page, reservation and instance order. */
  lemma InstancesKeepOrder(regions: seq<(string, RegionScan)>, i: nat)
    requires i < |regions|
    requires forall j :: 0 <= j < |regions| && j != i ==> regions[j].0 != regions[i].0
    requires regions[i].0 != DebugKey
    requires ScanRegion(regions[i].0, regions[i].1).Ok?
    requires Flatten(regions[i].1.pages) != []
    ensures regions[i].0 in Payload(regions).fields
    ensures var raws := Flatten(regions[i].1.pages);
            var v := Payload(regions).fields[regions[i].0];
            v.Arr? && |v.items| == |raws| &&
            forall j :: 0 <= j < |raws| ==> Shape(regions[i].0, raws[j]) == Ok(v.items[j])
  {
    var vs := Visits(regions);
    var raws := Flatten(regions[i].1.pages);
    var o := ScanRegion(regions[i].0, regions[i].1);
    assert o == ShapeAll(regions[i].0, raws);
    assert vs[i] == (regions[i].0, o.value) && |o.value| == |raws|;
    LastVisitWins(vs, i);
    PayloadRegionMember(regions, regions[i].0);
  }
}
