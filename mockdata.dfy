/**
 * The hard-coded lead dataset of src/utils/mockData.ts and the keyword
 * routing of `mockAIQuery` over it.  The simulated one-second delay is not
 * part of the model: the query's answer is a function of the query alone.
 */
module MockData {
  import opened Types
  import opened Text
  import Sorting

  /** `MOCK_LEADS`: ten active leads around the San Francisco Bay. */
  const MockLeads: seq<Lead> := [
    Lead("1", "John Anderson", "Downtown, San Francisco", 92,
      Coordinates(37.7749, -122.4194), Some("+1 555-0101"),
      Some("john.anderson@email.com"), Some("High-value commercial client"), Some(Active), None),
    Lead("2", "Sarah Mitchell", "Mission District, SF", 85,
      Coordinates(37.7599, -122.4148), Some("+1 555-0102"),
      Some("sarah.mitchell@email.com"), Some("Residential property lead"), Some(Active), None),
    Lead("3", "Michael Chen", "Palo Alto", 78,
      Coordinates(37.4419, -122.143), Some("+1 555-0103"),
      Some("michael.chen@email.com"), Some("Tech startup founder"), Some(Active), None),
    Lead("4", "Emily Rodriguez", "Oakland", 88,
      Coordinates(37.8044, -122.2712), Some("+1 555-0104"),
      Some("emily.rodriguez@email.com"), Some("Investment opportunity"), Some(Active), None),
    Lead("5", "David Thompson", "San Jose", 72,
      Coordinates(37.3382, -121.8863), Some("+1 555-0105"),
      Some("david.thompson@email.com"), Some("Corporate client"), Some(Active), None),
    Lead("6", "Jennifer Lee", "Berkeley", 95,
      Coordinates(37.8715, -122.273), Some("+1 555-0106"),
      Some("jennifer.lee@email.com"), Some("Premium real estate"), Some(Active), None),
    Lead("7", "Robert Wilson", "Fremont", 68,
      Coordinates(37.5485, -121.9886), Some("+1 555-0107"),
      Some("robert.wilson@email.com"), Some("Standard client"), Some(Active), None),
    Lead("8", "Lisa Garcia", "Sunnyvale", 82,
      Coordinates(37.3688, -122.0363), Some("+1 555-0108"),
      Some("lisa.garcia@email.com"), Some("High potential lead"), Some(Active), None),
    Lead("9", "James Brown", "Daly City", 76,
      Coordinates(37.6879, -122.4702), Some("+1 555-0109"),
      Some("james.brown@email.com"), Some("Returning customer"), Some(Active), None),
    Lead("10", "Maria Martinez", "Redwood City", 91,
      Coordinates(37.4852, -122.2364), Some("+1 555-0110"),
      Some("maria.martinez@email.com"), Some("VIP prospect"), Some(Active), None)
  ]

  /** The sort key of the comparator `(a, b) => b.matchScore - a.matchScore`. */
  function MatchKey(lead: Lead): real {
    lead.matchScore as real
  }

  /** The `high score` filter: `lead.matchScore > 80`. */
  predicate HighScoring(lead: Lead) {
    lead.matchScore > 80
  }

  /** The San Francisco filter on the lower-cased location. */
  predicate InSanFrancisco(lead: Lead) {
    var location := LowerAscii(lead.location);
    Includes(location, "san francisco") || Includes(location, "sf")
  }

  /** The five branches of `mockAIQuery`, in the order they are tried. */
  datatype QueryRoute = Near | HighScore | SanFrancisco | ShowAll | TopFive

  /** The branch a query takes: the first keyword group its lower-cased text contains. */
  function Route(query: string): QueryRoute {
    var lowerQuery := LowerAscii(query);
    if Includes(lowerQuery, "nearby") || Includes(lowerQuery, "near") then Near
    else if Includes(lowerQuery, "high score") || Includes(lowerQuery, "best") then HighScore
    else if Includes(lowerQuery, "san francisco") || Includes(lowerQuery, "sf") then SanFrancisco
    else if Includes(lowerQuery, "all") || Includes(lowerQuery, "show") then ShowAll
    else TopFive
  }

  /** `array.slice(0, n)`: the first `n` elements, or all of them when there are fewer. */
  function Take(s: seq<Lead>, n: nat): (r: seq<Lead>)
    ensures |r| == if |s| < n then |s| else n
    ensures r == s[..|r|]
  {
    if |s| < n then s else s[..n]
  }

  /**
   * The answer `mockAIQuery` computes from a lead list: the list it reads is
   * a parameter here, `MOCK_LEADS` in the application.
   */
  function Answer(query: string, leads: seq<Lead>): seq<Lead> {
    match Route(query)
    case Near => Take(leads, 5)
    case HighScore => Sorting.SortDescending(Sorting.Filter(leads, HighScoring), MatchKey)
    case SanFrancisco => Sorting.Filter(leads, InSanFrancisco)
    case ShowAll => leads
    case TopFive => Take(Sorting.SortDescending(leads, MatchKey), 5)
  }

  /** `mockAIQuery(query)`, once its delay has elapsed. */
  function MockAIQuery(query: string): seq<Lead> {
    Answer(query, MockLeads)
  }

  /** "nearby" contains "near", so the near branch is taken exactly when the query contains "near". */
  lemma NearRouteIff(query: string)
    ensures Route(query) == Near <==> Includes(LowerAscii(query), "near")
  {
    var lowerQuery := LowerAscii(query);
    if Includes(lowerQuery, "nearby") {
      var near := "near";
      assert IncludesAt("nearby", near, 0);
      IncludesTransitive(lowerQuery, "nearby", near);
    }
  }

  /**
   * "show me nearby leads" also contains "show", but the near branch comes
   * first and wins.
   */
  lemma NearOutranksShow(query: string)
    requires query == "show me nearby leads"
    ensures Includes(LowerAscii(query), "show")
    ensures Route(query) == Near
  {
    var lowerQuery := LowerAscii(query);
    assert lowerQuery == query;
    assert IncludesAt(lowerQuery, "show", 0);
    assert IncludesAt(lowerQuery, "near", 8);
    NearRouteIff(query);
  }

  /** A query containing "near" answers the first five leads, in list order. */
  lemma NearQueryFirstFive(query: string, leads: seq<Lead>)
    requires Includes(LowerAscii(query), "near") && |leads| >= 5
    ensures Answer(query, leads) == [leads[0], leads[1], leads[2], leads[3], leads[4]]
  {
    NearRouteIff(query);
    assert leads[..5] == [leads[0], leads[1], leads[2], leads[3], leads[4]];
  }

  /**
   * The high-score branch answers exactly the leads scoring above 80, each
   * as often as in the list, in non-increasing order of score.
   */
  lemma HighScoreQuery(query: string, leads: seq<Lead>)
    requires Route(query) == HighScore
    ensures var r := Answer(query, leads);
      multiset(r) == multiset(Sorting.Filter(leads, HighScoring))
      && Sorting.NonIncreasing(r, MatchKey)
      && forall lead :: lead in r <==> lead in leads && lead.matchScore > 80
    ensures forall lead ::
      multiset(Answer(query, leads))[lead] == if lead.matchScore > 80 then multiset(leads)[lead] else 0
  {
    var highScoring := Sorting.Filter(leads, HighScoring);
    Sorting.SortDescendingSorted(highScoring, MatchKey);
    forall lead ensures lead in Answer(query, leads) <==> lead in leads && lead.matchScore > 80 {
      Sorting.FilterMembers(leads, HighScoring, lead);
      assert lead in Answer(query, leads) <==> lead in multiset(highScoring);
    }
    forall lead ensures multiset(Answer(query, leads))[lead]
      == if lead.matchScore > 80 then multiset(leads)[lead] else 0 {
      Sorting.FilterMultiplicity(leads, HighScoring, lead);
    }
  }

  /**
   * The San Francisco branch answers exactly the leads whose lower-cased
   * location contains "san francisco" or "sf", each as often as in the
   * list, in list order.
   */
  lemma SanFranciscoQuery(query: string, leads: seq<Lead>)
    requires Route(query) == SanFrancisco
    ensures multiset(Answer(query, leads)) <= multiset(leads)
    ensures forall lead :: lead in Answer(query, leads) <==> lead in leads && InSanFrancisco(lead)
    ensures forall lead ::
      multiset(Answer(query, leads))[lead] == if InSanFrancisco(lead) then multiset(leads)[lead] else 0
    ensures var r, idx := Answer(query, leads), Sorting.MatchingIndices(leads, InSanFrancisco);
      |r| == |idx| && forall k | 0 <= k < |r| :: r[k] == leads[idx[k]]
  {
    Sorting.FilterSubMultiset(leads, InSanFrancisco);
    Sorting.FilterKeepsOrder(leads, InSanFrancisco);
    forall lead ensures lead in Answer(query, leads) <==> lead in leads && InSanFrancisco(lead) {
      Sorting.FilterMembers(leads, InSanFrancisco, lead);
    }
    forall lead ensures multiset(Answer(query, leads))[lead]
      == if InSanFrancisco(lead) then multiset(leads)[lead] else 0 {
      Sorting.FilterMultiplicity(leads, InSanFrancisco, lead);
    }
  }

  /**
   * The default branch answers five leads (all of them when there are
   * fewer) in non-increasing order of score, none scoring below a lead it
   * leaves out.
   */
  lemma TopFiveQuery(query: string, leads: seq<Lead>)
    requires Route(query) == TopFive
    ensures var r := Answer(query, leads);
      |r| == (if |leads| < 5 then |leads| else 5)
      && multiset(r) <= multiset(leads)
      && Sorting.NonIncreasing(r, MatchKey)
      && forall a, b | a in r && b in leads && b !in r :: a.matchScore >= b.matchScore
  {
    HighestFive(leads);
  }

  /** The five highest-scoring leads of a list, as the default branch takes them. */
  lemma HighestFive(leads: seq<Lead>)
    ensures var r := Take(Sorting.SortDescending(leads, MatchKey), 5);
      |r| == (if |leads| < 5 then |leads| else 5)
      && multiset(r) <= multiset(leads)
      && Sorting.NonIncreasing(r, MatchKey)
      && forall a, b | a in r && b in leads && b !in r :: a.matchScore >= b.matchScore
  {
    var n := if |leads| < 5 then |leads| else 5;
    var top := Sorting.SortDescending(leads, MatchKey)[..n];
    assert Take(Sorting.SortDescending(leads, MatchKey), 5) == top;
    Sorting.TopPrefix(leads, MatchKey, n);
    forall a, b | a in top && b in leads && b !in top ensures a.matchScore >= b.matchScore {
      assert MatchKey(a) >= MatchKey(b);
    }
  }

  /** The "all"/"show" branch answers the list itself, in its own order. */
  lemma ShowAllQuery(query: string, leads: seq<Lead>)
    requires Route(query) == ShowAll
    ensures Answer(query, leads) == leads
  {
  }

  /**
   * Whatever the query, the answer is drawn from the list: no lead is made
   * up or altered, and none appears more often than in the list.
   */
  lemma AnswersComeFromList(query: string, leads: seq<Lead>)
    ensures multiset(Answer(query, leads)) <= multiset(leads)
    ensures forall lead | lead in Answer(query, leads) :: lead in leads
  {
    var answer := Answer(query, leads);
    match Route(query)
    case Near =>
      Sorting.PrefixOf(leads, MatchKey, |answer|);
    case HighScore =>
      HighScoreQuery(query, leads);
      Sorting.FilterSubMultiset(leads, HighScoring);
    case SanFrancisco =>
      SanFranciscoQuery(query, leads);
    case ShowAll =>
    case TopFive =>
      TopFiveQuery(query, leads);
    forall lead | lead in answer ensures lead in leads {
      assert lead in multiset(answer);
    }
  }

  /** Every answer over `MOCK_LEADS` is made of its leads. */
  lemma MockAnswersComeFromDataset(query: string)
    ensures multiset(MockAIQuery(query)) <= multiset(MockLeads)
    ensures forall lead | lead in MockAIQuery(query) :: lead in MockLeads
  {
    AnswersComeFromList(query, MockLeads);
  }

  /** Over `MOCK_LEADS`, a "near" query answers leads 1 to 5. */
  lemma MockNearQuery(query: string)
    requires Includes(LowerAscii(query), "near")
    ensures |MockAIQuery(query)| == 5
    ensures forall i | 0 <= i < 5 :: MockAIQuery(query)[i] == MockLeads[i]
  {
    NearQueryFirstFive(query, MockLeads);
  }
}
