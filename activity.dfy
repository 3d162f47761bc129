// The analytics inputs the reports aggregate: a user's clusters ("sessions")
// as the change-list clustering hands them over, and the formatting and
// distance functions of the browser and the analytics library.
module Activity {
  import opened Wrappers
  import opened Dates

  datatype Geo = Geo(lat: real, long: real)

  /**
   * One cluster: its time range, the number of distinct records and
   * households it touched, its travelled distance and the locations of its
   * first and last upload (absent when the uploads carry none).
   */
  datatype Cluster = Cluster(
    start: Instant,
    end: Instant,
    uniqueCount: nat,
    householdCount: nat,
    totalDist: real,
    geoStart: Option<Geo>,
    geoEnd: Option<Geo>)

  /** One user's entry of filterByUser(), with that user's clusters in order. */
  datatype UserClusters = UserClusters(user: string, clusters: seq<Cluster>)

  /**
   * The calls whose results depend on the locale, the time zone or
   * floating point: toISOString, TimeRange.roundToDay, toDateString,
   * toLocaleTimeString, TimeRange.prettyPrintSeconds and
   * GeoHelper.getDistanceFromLatLonInKm (whose second point may be missing).
   */
  datatype Formats = Formats(
    iso: Instant -> string,
    roundToDay: Instant -> Instant,
    dateString: Instant -> string,
    timeString: Instant -> string,
    prettySeconds: real -> string,
    distanceKm: (Geo, Option<Geo>) -> real)

  /** cluster.getDurationSeconds(), in milliseconds. */
  function DurationOf(c: Cluster): int
  {
    DurationMs(c.start, c.end)
  }

  /** Each cluster of one user paired with that user. */
  function Tagged(user: string, cs: seq<Cluster>): (ps: seq<(string, Cluster)>)
    ensures |ps| == |cs|
    ensures forall i :: 0 <= i < |cs| ==> ps[i] == (user, cs[i])
  {
    seq(|cs|, i requires 0 <= i < |cs| => (user, cs[i]))
  }

  lemma TaggedSnoc(user: string, cs: seq<Cluster>)
    requires cs != []
    ensures Tagged(user, cs) == Tagged(user, cs[..|cs| - 1]) + [(user, cs[|cs| - 1])]
  {
  }

  /** The (user, cluster) pairs in the order the nested forEach loops visit them. */
  function Visits(blocks: seq<UserClusters>): seq<(string, Cluster)>
  {
    if blocks == [] then []
    else
      var last := blocks[|blocks| - 1];
      Visits(blocks[..|blocks| - 1]) + Tagged(last.user, last.clusters)
  }
}
