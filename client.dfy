/** The browser client's pure rules: the skill-match score of an opportunity,
    the badge, description preview and skill tags of its card, and the URL of
    the search request (clie/script.js). */
module Client {
  import opened Wrappers
  import opened Seqs

  /** The list endpoint the client fetches from. */
  const ApiUrl: string := "http://localhost:5000/api/opportunities"
  /** What joins a non-empty search query to the endpoint. */
  const SkillParam: string := "?skill="
  /** The fixed mock skill list every score is computed against; the client
      never reads who is logged in. */
  const UserSkills: seq<string> := ["React", "Node", "Python"]
  /** How many characters of a description the card previews. */
  const PreviewLength: nat := 60
  const Ellipsis: string := "..."
  const NoDescription: string := "No description."
  /** How many skill tags a card shows at most. */
  const MaxTags: nat := 3

  // ---------------------------------------------------------------------
  // Search URL

  /** The URL fetched for a search: the endpoint alone for the empty query,
      otherwise the endpoint with the query appended verbatim (not encoded). */
  function SearchUrl(query: string): (url: string)
    ensures |ApiUrl| <= |url| && url[..|ApiUrl|] == ApiUrl
    ensures query != "" ==> |query| < |url| && url[|url| - |query|..] == query
  {
    if query == "" then ApiUrl else ApiUrl + SkillParam + query
  }

  /** The textual inverse of SearchUrl: what follows the endpoint and
      `?skill=`, or "" for any other URL. It is not a URL parser (no decoding,
      no `&` or `#` handling). */
  function QueryOf(url: string): (query: string)
  {
    var prefix := ApiUrl + SkillParam;
    if |prefix| <= |url| && url[..|prefix|] == prefix then url[|prefix|..] else ""
  }

  /** The search URL loses nothing: the query is recovered from it, the bare
      endpoint is used exactly for the empty query, and distinct queries give
      distinct URLs. */
  lemma SearchUrlRoundTrip(query: string, other: string)
    ensures QueryOf(SearchUrl(query)) == query
    ensures SearchUrl(query) == ApiUrl <==> query == ""
    ensures SearchUrl(query) == SearchUrl(other) ==> query == other
  {
  }

  // ---------------------------------------------------------------------
  // Match score

  /** The result of the score computation: a whole percentage, or NaN for the
      0/0 the empty skills list produces. */
  datatype Score = Percent(value: nat) | NaN

  /** A required skill the user has: exact, case-sensitive membership. */
  predicate Known(skill: string)
  {
    skill in UserSkills
  }

  /** The required skills the user has, each occurrence kept. */
  function Matches(skills: seq<string>): (matched: seq<string>)
  {
    Filter(skills, Known)
  }

  /** `Math.round(100 * m / n)` on naturals: the nearest whole percentage,
      a half rounded up. */
  function Round(m: nat, n: nat): (r: nat)
    requires 0 < n
    ensures n * (2 * r - 1) <= 200 * m < n * (2 * r + 1)
  {
    var q := (200 * m + n) / (2 * n);
    assert 2 * n * q <= 200 * m + n < 2 * n * q + 2 * n;
    q
  }

  /** Multiplying by a positive number preserves strict order both ways. */
  lemma CancelLess(n: int, a: int, b: int)
    requires 0 < n && n * a < n * b
    ensures a < b
  {
  }

  /** Only one percentage is within half a point of 100 * m / n, with a half
      rounded up. */
  lemma RoundUnique(m: nat, n: nat, k: int)
    requires 0 < n
    requires n * (2 * k - 1) <= 200 * m < n * (2 * k + 1)
    ensures k == Round(m, n)
  {
    var r: int := Round(m, n);
    CancelLess(n, 2 * k - 1, 2 * r + 1);
    CancelLess(n, 2 * r - 1, 2 * k + 1);
  }

  /** A share of at most the whole rounds to at most 100. */
  lemma RoundAtMostHundred(m: nat, n: nat)
    requires 0 < n && m <= n
    ensures Round(m, n) <= 100
  {
    var r: int := Round(m, n);
    CancelLess(n, 2 * r - 1, 201);
  }

  /** Rounding gives 0 exactly when the share is below half a percent. */
  lemma RoundZeroIff(m: nat, n: nat)
    requires 0 < n
    ensures Round(m, n) == 0 <==> 200 * m < n
  {
  }

  /** calculateMatch: the share of the required skills, counted per
      occurrence, that the user has. Absent (null/undefined) skills score 0;
      an empty list divides 0 by 0. */
  function CalculateMatch(eventSkills: Option<seq<string>>): (score: Score)
    ensures eventSkills.None? ==> score == Percent(0)
    ensures eventSkills == Some([]) ==> score == NaN
    ensures eventSkills.Some? && eventSkills.value != [] ==>
              var n, m := |eventSkills.value|, |Matches(eventSkills.value)|;
              && score.Percent?
              && score.value <= 100
              && n * (2 * score.value - 1) <= 200 * m < n * (2 * score.value + 1)
  {
    match eventSkills
    case None => Percent(0)
    case Some(skills) =>
      if skills == [] then NaN
      else
        RoundAtMostHundred(|Matches(skills)|, |skills|);
        Percent(Round(|Matches(skills)|, |skills|))
  }

  /** Each occurrence of a skill the user has counts once, and nothing else
      counts. */
  lemma MatchesPerOccurrence(skills: seq<string>, s: string)
    ensures multiset(Matches(skills))[s] == if s in UserSkills then multiset(skills)[s] else 0
  {
    FilterMultiset(skills, Known, s);
  }

  /** Every required skill known: the score is 100. */
  lemma FullMatchScoresHundred(skills: seq<string>)
    requires skills != []
    requires forall i | 0 <= i < |skills| :: skills[i] in UserSkills
    ensures CalculateMatch(Some(skills)) == Percent(100)
  {
    FilterAll(skills, Known);
    RoundUnique(|skills|, |skills|, 100);
  }

  /** No required skill known: the score is 0. */
  lemma NoMatchScoresZero(skills: seq<string>)
    requires skills != []
    requires forall i | 0 <= i < |skills| :: skills[i] !in UserSkills
    ensures CalculateMatch(Some(skills)) == Percent(0)
  {
    FilterNone(skills, Known);
    RoundUnique(0, |skills|, 0);
  }

  /** One known skill of three scores 33. */
  lemma OneOfThreeScores33()
    ensures CalculateMatch(Some(["React", "CSS", "Design"])) == Percent(33)
  {
  }

  /** Two known skills of three score 67 (two thirds rounds up). */
  lemma TwoOfThreeScores67()
    ensures CalculateMatch(Some(["React", "Node", "MongoDB"])) == Percent(67)
  {
  }

  /** A repeated known skill counts at each occurrence. */
  lemma RepeatedSkillScores100()
    ensures CalculateMatch(Some(["React", "React"])) == Percent(100)
  {
  }

  /** Matching is case-sensitive: "react" is not "React". */
  lemma LowerCaseDoesNotMatch()
    ensures CalculateMatch(Some(["react"])) == Percent(0)
  {
  }

  // ---------------------------------------------------------------------
  // Card display rules

  /** The badge of a card: shown, carrying the score, only for a score above
      0; never for 0 or NaN (`NaN > 0` is false). */
  function Badge(score: Score): (badge: Option<nat>)
    ensures badge.Some? <==> score.Percent? && score.value > 0
    ensures badge.Some? ==> badge.value == score.value
  {
    if score.Percent? && score.value > 0 then Some(score.value) else None
  }

  /** A card has a badge exactly when the skills list is present, non-empty,
      and at least half a percent of it is known; so a badge implies at least
      one known skill, but a single known skill among more than 200 shows
      none. */
  lemma BadgeShownIff(eventSkills: Option<seq<string>>)
    ensures Badge(CalculateMatch(eventSkills)).Some? <==>
              && eventSkills.Some?
              && eventSkills.value != []
              && |eventSkills.value| <= 200 * |Matches(eventSkills.value)|
  {
    if eventSkills.Some? && eventSkills.value != [] {
      RoundZeroIff(|Matches(eventSkills.value)|, |eventSkills.value|);
    }
  }

  /** The description preview: its first 60 characters followed by "...",
      or "No description." when the description is absent or empty. */
  function Preview(description: Option<string>): (p: string)
    ensures description.None? || description == Some("") ==> p == NoDescription
    ensures description.Some? && description.value != "" ==>
              var d, k := description.value, |p| - |Ellipsis|;
              && |Ellipsis| <= |p|
              && k == (if |d| < PreviewLength then |d| else PreviewLength)
              && p[..k] == d[..k]
              && p[k..] == Ellipsis
  {
    match description
    case None => NoDescription
    case Some(d) =>
      if d == "" then NoDescription
      else (if |d| < PreviewLength then d else d[..PreviewLength]) + Ellipsis
  }

  /** The skill tags of a card: the first three required skills, in order, or
      all of them when there are fewer. */
  function Tags(skills: seq<string>): (tags: seq<string>)
    ensures |tags| == if |skills| < MaxTags then |skills| else MaxTags
    ensures tags == skills[..|tags|]
  {
    if |skills| < MaxTags then skills else skills[..MaxTags]
  }

  /** An opportunity as the client receives it. */
  datatype Event = Event(
    kind: string,
    title: string,
    skillsRequired: Option<seq<string>>,
    description: Option<string>)

  /** What one card shows. */
  datatype Card = Card(kind: string, badge: Option<nat>, title: string, preview: string, tags: seq<string>)

  /** The card template. It fails (None: the template throws) when the skills
      list is absent, since the tags are sliced from it without the guard the
      score has. */
  function RenderCard(e: Event): (c: Option<Card>)
    ensures c.Some? <==> e.skillsRequired.Some?
    ensures c.Some? ==>
              && c.value.kind == e.kind
              && c.value.title == e.title
              && |c.value.tags| <= MaxTags
              && |c.value.tags| <= |e.skillsRequired.value|
              && c.value.tags == e.skillsRequired.value[..|c.value.tags|]
              && (c.value.badge.Some? ==> 0 < c.value.badge.value <= 100 && Matches(e.skillsRequired.value) != [])
    ensures c.Some? ==>
              && c.value.badge == Badge(CalculateMatch(e.skillsRequired))
              && c.value.preview == Preview(e.description)
              && c.value.tags == Tags(e.skillsRequired.value)
    ensures c.Some? ==>
              var skills := e.skillsRequired.value;
              && (c.value.badge.Some? <==> skills != [] && |skills| <= 200 * |Matches(skills)|)
              && |c.value.tags| == (if |skills| < MaxTags then |skills| else MaxTags)
  {
    match e.skillsRequired
    case None => None
    case Some(skills) =>
      var score := CalculateMatch(e.skillsRequired);
      BadgeShownIff(e.skillsRequired);
      Some(Card(e.kind, Badge(score), e.title, Preview(e.description), Tags(skills)))
  }
}
