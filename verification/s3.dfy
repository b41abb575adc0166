/**
 * The S3 listing handler. It lists the buckets once. For each bucket it asks
 * for the location, the versioning status and the default encryption, and
 * files a flat record under the bucket's region. Each of the three per-bucket
 * lookups falls back to a fixed word when it raises. Only the bucket listing
 * itself, or a bucket entry without a name or creation date, makes the handler
 * raise. The AWS answers are inputs.
 */
module S3 {
  import opened Types
  import opened Json
  import opened Lambda

  /** One bucket of `list_buckets` with the answers to the lookups about it.
      `location` is `get_bucket_location`'s `LocationConstraint` (`None` when
      absent) or the text of its exception. `versioning` is the `Status` of
      `get_bucket_versioning` or its exception. `encryption` is the
      `SSEAlgorithm` of each rule of `get_bucket_encryption`, with `None` for
      a rule without one, and is `None` itself when the call or the
      configuration lookup raised. `creationDate` is the formatted date. */
  datatype RawBucket = RawBucket(
    name: Option<string>,
    creationDate: Option<string>,
    location: Result<Option<string>, string>,
    versioning: Result<Option<string>, string>,
    encryption: Option<seq<Option<string>>>)

  /** `LocationConstraint or 'us-east-1'`, and `'Unknown'` when the lookup raised. */
  function Region(b: RawBucket): (r: string)
    ensures r == "Unknown" <==> b.location.Err? || b.location.value == Some("Unknown")
    ensures b.location.Ok? && (b.location.value.None? || b.location.value.value == "") ==> r == "us-east-1"
    ensures b.location.Ok? && b.location.value.Some? && b.location.value.value != "" ==> r == b.location.value.value
    ensures r != ""
  {
    match b.location
    case Err(_) => "Unknown"
    case Ok(constraint) =>
      if constraint.Some? && constraint.value != "" then constraint.value else "us-east-1"
  }

  /** `versioning.get('Status', 'Disabled')`, and `'Unknown'` when the call raised. */
  function Versioning(b: RawBucket): (v: string)
    ensures b.versioning.Err? ==> v == "Unknown"
    ensures b.versioning == Ok(None) ==> v == "Disabled"
    ensures b.versioning.Ok? && b.versioning.value.Some? ==> v == b.versioning.value.value
  {
    match b.versioning
    case Err(_) => "Unknown"
    case Ok(status) => status.GetOr("Disabled")
  }

  /** The first rule's algorithm; `"None"` when anything on the way raised,
      including `rules[0]` of an empty rule list. */
  function Encryption(b: RawBucket): (e: string)
    ensures b.encryption.None? ==> e == "None"
    ensures b.encryption.Some? && b.encryption.value == [] ==> e == "None"
    ensures b.encryption.Some? && b.encryption.value != [] && b.encryption.value[0].Some? ==>
              e == b.encryption.value[0].value
    ensures b.encryption.Some? && b.encryption.value != [] && b.encryption.value[0].None? ==> e == "None"
  {
    match b.encryption
    case None => "None"
    case Some(rules) => if rules != [] && rules[0].Some? then rules[0].value else "None"
  }

  /** A bucket entry the handler can read: `bucket['Name']` and
      `bucket['CreationDate']` do not raise. */
  predicate Readable(b: RawBucket) {
    b.name.Some? && b.creationDate.Some?
  }

  /** The record filed for one bucket. */
  function Info(b: RawBucket): (info: Json)
    requires Readable(b)
    ensures Field(info, "Region") == Some(Str(Region(b)))
    ensures Field(info, "Name") == Some(Str(b.name.value))
    ensures Field(info, "CreationDate") == Some(Str(b.creationDate.value))
    ensures Field(info, "Versioning") == Some(Str(Versioning(b)))
    ensures Field(info, "Encryption") == Some(Str(Encryption(b)))
    ensures StringRecord(info)
  {
    Obj(map[
      "Name" := Str(b.name.value),
      "Region" := Str(Region(b)),
      "CreationDate" := Str(b.creationDate.value),
      "Versioning" := Str(Versioning(b)),
      "Encryption" := Str(Encryption(b))])
  }

  /** The records in listing order, tagged with the region they are filed under. */
  function Tagged(bs: seq<RawBucket>): (ps: seq<(string, Json)>)
    requires forall i :: 0 <= i < |bs| ==> Readable(bs[i])
    ensures |ps| == |bs|
    ensures forall i :: 0 <= i < |bs| ==> ps[i] == (Region(bs[i]), Info(bs[i]))
  {
    seq(|bs|, i requires 0 <= i < |bs| && Readable(bs[i]) => (Region(bs[i]), Info(bs[i])))
  }

  /** `if region not in all_buckets: all_buckets[region] = []` then append,
      over the records in order. */
  function Group(ps: seq<(string, Json)>): (m: Grouped)
    ensures forall r :: r in m ==> m[r] != []
    ensures forall r :: r in m <==> exists i :: 0 <= i < |ps| && ps[i].0 == r
    decreases |ps|
  {
    if ps == [] then map[]
    else
      var n := |ps| - 1;
      var m := Group(ps[..n]);
      assert forall i :: 0 <= i < n ==> ps[..n][i] == ps[i];
      var (r, info) := ps[n];
      m[r := (if r in m then m[r] else []) + [info]]
  }

  /** Reference definition: the records filed under `r`, in listing order. */
  function Filter(ps: seq<(string, Json)>, r: string): seq<Json>
    decreases |ps|
  {
    if ps == [] then []
    else Filter(ps[..|ps| - 1], r) + (if ps[|ps| - 1].0 == r then [ps[|ps| - 1].1] else [])
  }

  /** Each group holds exactly the records of its region, in listing order. */
  lemma {:induction false} GroupIsFilter(ps: seq<(string, Json)>, r: string)
    ensures r in Group(ps) ==> Group(ps)[r] == Filter(ps, r)
    ensures r !in Group(ps) ==> Filter(ps, r) == []
    decreases |ps|
  {
    if ps != [] {
      GroupIsFilter(ps[..|ps| - 1], r);
    }
  }

  /** Sum of the group sizes. */
  ghost function Total(m: Grouped): nat
    decreases |m|
  {
    if m == map[] then 0
    else
      var k :| k in m;
      |m[k]| + Total(m - {k})
  }

  /** Any group can be taken out of the sum first. */
  lemma {:induction false} TotalRemove(m: Grouped, k: string)
    requires k in m
    ensures Total(m) == |m[k]| + Total(m - {k})
    decreases |m|
  {
    assert exists j :: j in m && Total(m) == |m[j]| + Total(m - {j});
    var j :| j in m && Total(m) == |m[j]| + Total(m - {j});
    if j != k {
      assert |m - {j}| < |m|;
      TotalRemove(m - {j}, k);
      assert |m - {k}| < |m|;
      TotalRemove(m - {k}, j);
      assert m - {j} - {k} == m - {k} - {j};
    }
  }

  /** Filing one more record adds one to the sum. */
  lemma TotalFile(m: Grouped, r: string, info: Json)
    ensures Total(m[r := (if r in m then m[r] else []) + [info]]) == Total(m) + 1
  {
    var m' := m[r := (if r in m then m[r] else []) + [info]];
    TotalRemove(m', r);
    assert m' - {r} == m - {r};
    if r in m {
      TotalRemove(m, r);
    } else {
      assert m - {r} == m;
    }
  }

  /** Grouping loses and duplicates nothing: the groups' sizes add up to the
      number of listed buckets. */
  lemma {:induction false} GroupKeepsCount(ps: seq<(string, Json)>)
    ensures Total(Group(ps)) == |ps|
    decreases |ps|
  {
    if ps != [] {
      var n := |ps| - 1;
      GroupKeepsCount(ps[..n]);
      TotalFile(Group(ps[..n]), ps[n].0, ps[n].1);
    }
  }

  /** Every record sits under the key equal to its own `Region` field. */
  lemma GroupedUnderOwnRegion(bs: seq<RawBucket>, r: string)
    requires forall i :: 0 <= i < |bs| ==> Readable(bs[i])
    requires r in Group(Tagged(bs))
    ensures forall j :: 0 <= j < |Group(Tagged(bs))[r]| ==> Field(Group(Tagged(bs))[r][j], "Region") == Some(Str(r))
  {
    var ps := Tagged(bs);
    GroupIsFilter(ps, r);
    FilterUnderOwnRegion(bs, ps, r);
  }

  lemma {:induction false} FilterUnderOwnRegion(bs: seq<RawBucket>, ps: seq<(string, Json)>, r: string)
    requires |ps| == |bs|
    requires forall i :: 0 <= i < |bs| ==> Readable(bs[i]) && ps[i] == (Region(bs[i]), Info(bs[i]))
    ensures forall j :: 0 <= j < |Filter(ps, r)| ==> Field(Filter(ps, r)[j], "Region") == Some(Str(r))
    decreases |ps|
  {
    if ps != [] {
      var n := |ps| - 1;
      FilterUnderOwnRegion(bs[..n], ps[..n], r);
    }
  }

  /** The handler: `list_buckets` either answers with the buckets or raises. */
  function Handler(listing: Option<seq<RawBucket>>): (inv: Invocation)
    ensures inv.Raised? <==> listing.None? || exists i :: 0 <= i < |listing.value| && !Readable(listing.value[i])
    ensures inv.Returned? ==> inv.statusCode == 200 && inv.jsonHeader
    ensures inv.Returned? ==> inv.payload == GroupedJson(Group(Tagged(listing.value)))
  {
    match listing
    case None => Raised
    case Some(bs) =>
      if forall i :: 0 <= i < |bs| ==> Readable(bs[i])
      then Returned(200, true, GroupedJson(Group(Tagged(bs))))
      else Raised
  }
}
