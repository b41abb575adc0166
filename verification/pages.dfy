/**
 * The four resource pages. Each is the region cache of module RegionCache with
 * its own storage key and endpoint, and each has its own row colouring and
 * header wording.
 */
module Pages {
  import opened Types
  import opened Json
  import opened RegionCache

  /** The resource types, one page each. */
  datatype Resource = Instances | Databases | Clusters | Buckets

  /** The localStorage item each page hydrates from and persists to. */
  function StorageKey(r: Resource): string {
    match r
    case Instances => "instancesByRegion"
    case Databases => "rdsByRegion"
    case Clusters => "eksByRegion"
    case Buckets => "bucketsByRegion"
  }

  /** The listing endpoint each page's fetch function calls. */
  function Endpoint(r: Resource): string {
    match r
    case Instances => "https://0clmunin76.execute-api.ap-south-1.amazonaws.com/prod/list-instances"
    case Databases => "https://0clmunin76.execute-api.ap-south-1.amazonaws.com/prod/list-rds"
    case Clusters => "https://0clmunin76.execute-api.ap-south-1.amazonaws.com/prod/list-eks-clusters"
    case Buckets => "https://0clmunin76.execute-api.ap-south-1.amazonaws.com/prod/list-s3-buckets"
  }

  /** The record members each page shows as cell text. The creation or launch
      time goes through `new Date(...)` and the status is also compared with
      `===`; neither can throw, so only the text cells matter to rendering. */
  function Cells(r: Resource): set<string> {
    match r
    case Instances => {"Name", "InstanceId", "Type", "State"}
    case Databases => {"DBInstanceIdentifier", "Engine", "DBInstanceClass", "AvailabilityZone", "Status"}
    case Clusters => {"Name", "Status", "Version", "Arn", "Endpoint"}
    case Buckets => {"Name", "Region", "Versioning", "Encryption"}
  }

  /** Query options shared by all pages: five minutes of freshness, a day of
      cache retention. The pages never compare them with a clock. */
  const StaleTimeMs: nat := 1000 * 60 * 5
  const CacheTimeMs: nat := 1000 * 60 * 60 * 24

  /** Two different pages never share a storage key. */
  lemma StorageKeysDistinct(a: Resource, b: Resource)
    requires a != b
    ensures StorageKey(a) != StorageKey(b)
  {
  }

  /** Whatever happens on one page leaves every other page's stored snapshot
      exactly as it was: the pages share no state. */
  lemma PagesDoNotInterfere(c: Codec, mine: Resource, other: Resource, p: Page, es: seq<Event>)
    requires mine != other
    requires OneInFlight(p)
    ensures var after := Run(c, StorageKey(mine), p, es).cache.store;
            var k := StorageKey(other);
            (k in after <==> k in p.cache.store) && (k in after ==> after[k] == p.cache.store[k])
  {
    RunInvariants(c, StorageKey(mine), p, es);
    var after := Run(c, StorageKey(mine), p, es).cache.store;
    var k := StorageKey(other);
    assert k in after <==> k in after - {StorageKey(mine)};
    assert k in p.cache.store <==> k in p.cache.store - {StorageKey(mine)};
    if k in after {
      assert after[k] == (after - {StorageKey(mine)})[k];
    }
  }

  // ---------------------------------------------------------------------------
  // Row colouring and header wording
  // ---------------------------------------------------------------------------

  /** The two colours a row and its status badge take. */
  datatype Tone = Green | Red

  /** Class of a table row of the given tone. */
  function RowClass(t: Tone): string {
    if t == Green then "bg-green-50" else "bg-red-50"
  }

  /** Class of a status badge of the given tone. */
  function BadgeClass(t: Tone): string {
    if t == Green then "bg-green-100 text-green-800" else "bg-red-100 text-red-800"
  }

  /** The rule all three status-coloured pages share: a row is green exactly
      when the named member is one of the given strings (`===` on strings, so
      no case folding), and red for any other value or a missing member. */
  function StatusTone(row: Json, member: string, greens: set<string>): (t: Tone)
    ensures t == Green <==>
              row.Obj? && member in row.fields && row.fields[member].Str? && row.fields[member].s in greens
  {
    match Field(row, member)
    case Some(Str(s)) => if s in greens then Green else Red
    case _ => Red
  }

  /** A database row: green exactly when `db.Status === "available"`. */
  function DatabaseTone(db: Json): Tone {
    StatusTone(db, "Status", {"available"})
  }

  /** A cluster row: green exactly when its Status is `"ACTIVE"` or `"active"`. */
  function ClusterTone(cluster: Json): Tone {
    StatusTone(cluster, "Status", {"ACTIVE", "active"})
  }

  /** An instance row: green exactly when `instance.State === "running"`. */
  function InstanceTone(instance: Json): Tone {
    StatusTone(instance, "State", {"running"})
  }

  /** The cluster page's header noun: singular for exactly one cluster. */
  function ClusterNoun(count: nat): (noun: string)
    ensures noun == "cluster" <==> count == 1
    ensures noun == "clusters" <==> count != 1
  {
    "cluster" + (if count != 1 then "s" else "")
  }
}
