/**
 * Lead selection by position and the confidence bands of
 * src/utils/location.ts.  The great-circle distance the application computes
 * (`calculateDistance`, a Haversine formula in floating point) is a parameter
 * here: any function from the two latitude/longitude pairs to a number.
 * Nothing below depends on how it is computed.
 */
module Location {
  import opened Types
  import Sorting

  /** `calculateDistance(userLat, userLon, lead.coordinates.latitude, lead.coordinates.longitude)`. */
  function DistanceTo(calculateDistance: (real, real, real, real) -> real,
                      userLat: real, userLon: real, lead: Lead): real
  {
    calculateDistance(userLat, userLon, lead.coordinates.latitude, lead.coordinates.longitude)
  }

  // ---------------------------------------------------------------------------
  // findNearestLead

  /**
   * Index of the first lead at the smallest distance: a scan from the left
   * that moves on only to a strictly smaller distance.
   */
  function NearestIndex(leads: seq<Lead>, dist: Lead -> real): (k: nat)
    requires leads != []
    ensures k < |leads|
    ensures forall j | 0 <= j < |leads| :: dist(leads[k]) <= dist(leads[j])
    ensures forall j | 0 <= j < k :: dist(leads[j]) > dist(leads[k])
  {
    if |leads| == 1 then 0
    else
      var k := NearestIndex(leads[..|leads| - 1], dist);
      if dist(leads[|leads| - 1]) < dist(leads[k]) then |leads| - 1 else k
  }

  /**
   * What `findNearestLead` returns: `null` for no leads, otherwise the
   * nearest lead with its `distance` property set to that distance.
   */
  function Nearest(calculateDistance: (real, real, real, real) -> real,
                   userLat: real, userLon: real, leads: seq<Lead>): Option<Lead>
  {
    if leads == [] then None
    else
      var dist := (l: Lead) => DistanceTo(calculateDistance, userLat, userLon, l);
      var k := NearestIndex(leads, dist);
      Some(leads[k].(distance := Some(dist(leads[k]))))
  }

  /**
   * `findNearestLead`: keep the first lead and its distance, then walk every
   * lead (the first one again included) and switch to any lead that is
   * strictly nearer.
   */
  method FindNearestLead(userLat: real, userLon: real, leads: seq<Lead>,
                         calculateDistance: (real, real, real, real) -> real)
    returns (result: Option<Lead>)
    ensures result == Nearest(calculateDistance, userLat, userLon, leads)
  {
    if |leads| == 0 {
      return None;
    }
    ghost var dist := (l: Lead) => DistanceTo(calculateDistance, userLat, userLon, l);
    var nearest := leads[0];
    var minDistance := calculateDistance(userLat, userLon,
      leads[0].coordinates.latitude, leads[0].coordinates.longitude);
    ghost var k := 0;
    for i := 0 to |leads|
      invariant k == NearestIndex(leads[..if i == 0 then 1 else i], dist)
      invariant nearest == leads[k] && minDistance == dist(leads[k])
    {
      var lead := leads[i];
      var distance := calculateDistance(userLat, userLon,
        lead.coordinates.latitude, lead.coordinates.longitude);
      if i > 0 {
        assert leads[..i + 1][..i] == leads[..i];
      }
      if distance < minDistance {
        minDistance := distance;
        nearest := lead;
        k := i;
      }
    }
    assert leads[..|leads|] == leads;
    result := Some(nearest.(distance := Some(minDistance)));
  }

  /**
   * `findNearestLead` returns `null` exactly for an empty list; otherwise it
   * returns one of the leads, no farther away than any other and strictly
   * nearer than every lead before it, with only `distance` changed, set to
   * its distance.
   */
  lemma NearestIsFirstClosest(calculateDistance: (real, real, real, real) -> real,
                              userLat: real, userLon: real, leads: seq<Lead>)
    ensures Nearest(calculateDistance, userLat, userLon, leads).None? <==> leads == []
    ensures leads != [] ==> exists k | 0 <= k < |leads| ::
      var d := DistanceTo(calculateDistance, userLat, userLon, leads[k]);
      Nearest(calculateDistance, userLat, userLon, leads) == Some(leads[k].(distance := Some(d)))
      && (forall j | 0 <= j < |leads| :: d <= DistanceTo(calculateDistance, userLat, userLon, leads[j]))
      && (forall j | 0 <= j < k :: DistanceTo(calculateDistance, userLat, userLon, leads[j]) > d)
  {
    if leads != [] {
      var dist := (l: Lead) => DistanceTo(calculateDistance, userLat, userLon, l);
      var k := NearestIndex(leads, dist);
      assert forall j | 0 <= j < |leads| :: dist(leads[j]) == DistanceTo(calculateDistance, userLat, userLon, leads[j]);
    }
  }

  // ---------------------------------------------------------------------------
  // calculateBestMatch

  /** `Math.max(0, 100 - (distance / 50) * 100)`: 100 at the user, falling to 0 at 50 km. */
  function DistanceScore(distance: real): (s: real)
    ensures s >= 0.0
  {
    if 100.0 - (distance / 50.0) * 100.0 > 0.0 then 100.0 - (distance / 50.0) * 100.0 else 0.0
  }

  /** The distance score is 100 minus two points per kilometre up to 50 km and 0 beyond. */
  lemma DistanceScoreBands(distance: real)
    requires distance >= 0.0
    ensures distance <= 50.0 ==> DistanceScore(distance) == 100.0 - 2.0 * distance
    ensures distance >= 50.0 ==> DistanceScore(distance) == 0.0
    ensures 0.0 <= DistanceScore(distance) <= 100.0
  {
  }

  /** Nearer never scores lower. */
  lemma DistanceScoreAntitone(d1: real, d2: real)
    requires d1 <= d2
    ensures DistanceScore(d1) >= DistanceScore(d2)
  {
  }

  /** `(lead.matchScore + distanceScore) / 2`. */
  function CombinedScore(matchScore: int, distance: real): real {
    (matchScore as real + DistanceScore(distance)) / 2.0
  }

  /** `{ ...lead, distance, combinedScore }`. */
  datatype ScoredLead = ScoredLead(lead: Lead, combinedScore: real)

  function ScoreLead(calculateDistance: (real, real, real, real) -> real,
                     userLat: real, userLon: real, lead: Lead): ScoredLead
  {
    var distance := DistanceTo(calculateDistance, userLat, userLon, lead);
    ScoredLead(lead.(distance := Some(distance)), CombinedScore(lead.matchScore, distance))
  }

  /** `leads.map(...)`: every lead with its distance and combined score. */
  function ScoreAll(calculateDistance: (real, real, real, real) -> real,
                    userLat: real, userLon: real, leads: seq<Lead>): (r: seq<ScoredLead>)
    ensures |r| == |leads|
    ensures forall i | 0 <= i < |leads| :: r[i] == ScoreLead(calculateDistance, userLat, userLon, leads[i])
  {
    seq(|leads|, i requires 0 <= i < |leads| => ScoreLead(calculateDistance, userLat, userLon, leads[i]))
  }

  /**
   * The sort key `(x.combinedScore || 0)`.  A combined score is never NaN
   * here, and `|| 0` maps 0 to 0, so the key is the combined score itself.
   */
  function CombinedKey(s: ScoredLead): real {
    s.combinedScore
  }

  /**
   * What `calculateBestMatch` returns: `null` for no leads, otherwise the
   * head of the scored leads after a stable sort by descending combined score.
   */
  function BestMatch(calculateDistance: (real, real, real, real) -> real,
                     userLat: real, userLon: real, leads: seq<Lead>): Option<ScoredLead>
  {
    if leads == [] then None
    else
      var sorted := Sorting.SortDescending(ScoreAll(calculateDistance, userLat, userLon, leads), CombinedKey);
      Some(sorted[0])
  }

  /** `calculateBestMatch`: score every lead into a new array, sort it in place, take its head. */
  method CalculateBestMatch(userLat: real, userLon: real, leads: seq<Lead>,
                            calculateDistance: (real, real, real, real) -> real)
    returns (result: Option<ScoredLead>)
    ensures result == BestMatch(calculateDistance, userLat, userLon, leads)
  {
    if |leads| == 0 {
      return None;
    }
    var leadsWithScores := new ScoredLead[|leads|](
      i requires 0 <= i < |leads| => ScoreLead(calculateDistance, userLat, userLon, leads[i]));
    assert leadsWithScores[..] == ScoreAll(calculateDistance, userLat, userLon, leads);
    Sorting.SortInPlace(leadsWithScores, CombinedKey);
    result := Some(leadsWithScores[0]);
  }

  /**
   * `calculateBestMatch` returns `null` exactly for an empty list; otherwise
   * it returns one of the leads, scored, whose combined score is the largest
   * and strictly larger than that of every lead before it.
   */
  lemma BestMatchIsFirstMaximum(calculateDistance: (real, real, real, real) -> real,
                                userLat: real, userLon: real, leads: seq<Lead>)
    ensures BestMatch(calculateDistance, userLat, userLon, leads).None? <==> leads == []
    ensures leads != [] ==> exists k | 0 <= k < |leads| ::
      var best := ScoreLead(calculateDistance, userLat, userLon, leads[k]);
      BestMatch(calculateDistance, userLat, userLon, leads) == Some(best)
      && (forall j | 0 <= j < |leads| ::
            ScoreLead(calculateDistance, userLat, userLon, leads[j]).combinedScore <= best.combinedScore)
      && (forall j | 0 <= j < k ::
            ScoreLead(calculateDistance, userLat, userLon, leads[j]).combinedScore < best.combinedScore)
  {
    if leads != [] {
      var scored := ScoreAll(calculateDistance, userLat, userLon, leads);
      Sorting.SortedHeadIsFirstMax(scored, CombinedKey);
      var k := Sorting.FirstMaxIndex(scored, CombinedKey);
      assert forall j | 0 <= j < |leads| :: CombinedKey(scored[j]) == scored[j].combinedScore;
    }
  }

  /** The best match carries the lead's distance and keeps every other property of the lead. */
  lemma BestMatchKeepsLead(calculateDistance: (real, real, real, real) -> real,
                           userLat: real, userLon: real, lead: Lead)
    ensures var s := ScoreLead(calculateDistance, userLat, userLon, lead);
      s.lead.(distance := lead.distance) == lead
      && s.lead.distance == Some(DistanceTo(calculateDistance, userLat, userLon, lead))
      && s.combinedScore == (lead.matchScore as real + DistanceScore(s.lead.distance.value)) / 2.0
  {
  }

  // ---------------------------------------------------------------------------
  // getConfidenceColor / getConfidenceLabel

  /** The three bands both classifiers use. */
  datatype Band = High | Medium | Low

  function BandOf(score: real): (b: Band)
    ensures b == High <==> score >= 90.0
    ensures b == Medium <==> 70.0 <= score < 90.0
    ensures b == Low <==> score < 70.0
  {
    if score >= 90.0 then High else if score >= 70.0 then Medium else Low
  }

  /** `getConfidenceColor`: green from 90, amber from 70, red below. */
  function GetConfidenceColor(score: real): (color: string)
    ensures color == "#10B981" <==> score >= 90.0
    ensures color == "#F59E0B" <==> 70.0 <= score < 90.0
    ensures color == "#EF4444" <==> score < 70.0
  {
    if score >= 90.0 then "#10B981"
    else if score >= 70.0 then "#F59E0B"
    else "#EF4444"
  }

  /** `getConfidenceLabel`: "High" from 90, "Medium" from 70, "Low" below. */
  function GetConfidenceLabel(score: real): (caption: string)
    ensures caption == "High" <==> score >= 90.0
    ensures caption == "Medium" <==> 70.0 <= score < 90.0
    ensures caption == "Low" <==> score < 70.0
  {
    if score >= 90.0 then "High"
    else if score >= 70.0 then "Medium"
    else "Low"
  }

  /** Colour and label depend on the score only through its band, and the same one. */
  lemma ColorAndLabelShareBands(s: real, t: real)
    ensures GetConfidenceColor(s) == GetConfidenceColor(t) <==> BandOf(s) == BandOf(t)
    ensures GetConfidenceLabel(s) == GetConfidenceLabel(t) <==> BandOf(s) == BandOf(t)
  {
  }

  /** Rank of a band, Low lowest. */
  function Rank(b: Band): nat {
    match b
    case Low => 0
    case Medium => 1
    case High => 2
  }

  /** A higher score never gets a lower band. */
  lemma BandMonotonic(s: real, t: real)
    requires s <= t
    ensures Rank(BandOf(s)) <= Rank(BandOf(t))
  {
  }
}
