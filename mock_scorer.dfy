/**
 * The mock venue scorer of frontend/src/app/api/debug/mock/route.ts: a budget
 * score from the venue's price level, a vibe score from keyword matches
 * between the venue's types and the wanted vibes, and a summary sentence
 * chosen by the average of the two.
 */
module MockScorer {
  import opened Wrappers
  import opened Text

  /**
   * `budgetMap[budget] || 2`. An unset budget looks up the key "undefined",
   * which is not in the map, so it also gives 2.
   */
  function ExpectedPrice(budget: Option<string>): (e: int)
    ensures 1 <= e <= 4
    ensures budget == Some("budget") ==> e == 1
    ensures budget == Some("mid-range") ==> e == 2
    ensures budget == Some("upscale") ==> e == 3
    ensures budget == Some("luxury") ==> e == 4
    ensures budget.None? || budget.value !in ["budget", "mid-range", "upscale", "luxury"] ==> e == 2
  {
    match budget
    case Some("budget") => 1
    case Some("mid-range") => 2
    case Some("upscale") => 3
    case Some("luxury") => 4
    case _ => 2
  }

  function Abs(x: int): nat { if x < 0 then -x else x }

  /** `calculateBudgetScore(priceLevel, budget)`; an absent or 0 level is falsy. */
  function BudgetScore(priceLevel: Option<int>, budget: Option<string>): (s: int)
    ensures 1 <= s <= 10
    ensures priceLevel.None? || priceLevel.value == 0 ==> s == 5
    ensures priceLevel.Some? && priceLevel.value != 0 ==>
      (s == 10 <==> priceLevel.value == ExpectedPrice(budget))
    ensures priceLevel.Some? && priceLevel.value != 0 && s > 1 ==>
      s == 10 - 2 * Abs(priceLevel.value - ExpectedPrice(budget))
  {
    if priceLevel.None? || priceLevel.value == 0 then 5
    else
      var difference := Abs(priceLevel.value - ExpectedPrice(budget));
      if 1 < 10 - difference * 2 then 10 - difference * 2 else 1
  }

  /** The score never rises as the price moves away from the expected one, and falls while it is above the floor of 1. */
  lemma BudgetScoreMonotone(p: int, q: int, budget: Option<string>)
    requires p != 0 && q != 0
    requires Abs(p - ExpectedPrice(budget)) <= Abs(q - ExpectedPrice(budget))
    ensures BudgetScore(Some(p), budget) >= BudgetScore(Some(q), budget)
    ensures Abs(p - ExpectedPrice(budget)) < Abs(q - ExpectedPrice(budget)) && BudgetScore(Some(p), budget) > 1
         ==> BudgetScore(Some(p), budget) > BudgetScore(Some(q), budget)
  {
  }

  /** `types.join(" ").toLowerCase()`. */
  function Keywords(types: seq<string>): string {
    ToLower(Join(types, " "))
  }

  /** The test applied to each wanted vibe; note that "casual" is compared as written, not lowered. */
  predicate IsMatch(keywords: string, vibe: string) {
    Contains(keywords, ToLower(vibe)) || (Contains(keywords, "restaurant") && vibe == "casual")
  }

  /** How many of `vibes` match, counted from the front as the loop does. */
  function CountMatches(keywords: string, vibes: seq<string>): (n: nat)
    ensures n <= |vibes|
    ensures n == 0 <==> forall i :: 0 <= i < |vibes| ==> !IsMatch(keywords, vibes[i])
    ensures n == |vibes| <==> forall i :: 0 <= i < |vibes| ==> IsMatch(keywords, vibes[i])
  {
    if vibes == [] then 0
    else
      var last := vibes[|vibes| - 1];
      var front := vibes[..|vibes| - 1];
      assert forall i :: 0 <= i < |front| ==> front[i] == vibes[i];
      CountMatches(keywords, front) + (if IsMatch(keywords, last) then 1 else 0)
  }

  /** What `calculateVibeScore(types, vibes)` returns; missing lists, or no vibes, score 5. */
  function VibeScore(types: Option<seq<string>>, vibes: Option<seq<string>>): (s: int)
    ensures 5 <= s <= 10
    ensures types.None? || vibes.None? || vibes.value == [] ==> s == 5
    ensures s % 2 == 1 || s == 10
  {
    if types.None? || vibes.None? || |vibes.value| == 0 then 5
    else
      var matches := CountMatches(Keywords(types.value), vibes.value);
      if 10 < 5 + matches * 2 then 10 else 5 + matches * 2
  }

  /** `calculateVibeScore`: the `forEach` loop counting matches. */
  method CalculateVibeScore(types: Option<seq<string>>, vibes: Option<seq<string>>) returns (score: int)
    ensures score == VibeScore(types, vibes)
  {
    if types.None? || vibes.None? || |vibes.value| == 0 {
      return 5;
    }
    var venueKeywords := Keywords(types.value);
    var wanted := vibes.value;
    var matches := 0;
    var i := 0;
    while i < |wanted|
      invariant 0 <= i <= |wanted|
      invariant matches == CountMatches(venueKeywords, wanted[..i])
    {
      var vibe := wanted[i];
      if IsMatch(venueKeywords, vibe) {
        matches := matches + 1;
      }
      assert wanted[..i + 1][..i] == wanted[..i];
      i := i + 1;
    }
    assert wanted[..i] == wanted;
    score := if 10 < 5 + matches * 2 then 10 else 5 + matches * 2;
  }

  /** Count of a list with one more vibe at the end. */
  lemma CountMatchesSnoc(keywords: string, vibes: seq<string>, v: string)
    ensures CountMatches(keywords, vibes + [v]) == CountMatches(keywords, vibes) + (if IsMatch(keywords, v) then 1 else 0)
  {
    assert (vibes + [v])[..|vibes|] == vibes;
  }

  /** Wanting one more vibe never lowers the score, and raises it when that vibe matches and the score is below 10. */
  lemma MoreVibesNeverLower(types: seq<string>, vibes: seq<string>, v: string)
    requires vibes != []
    ensures VibeScore(Some(types), Some(vibes + [v])) >= VibeScore(Some(types), Some(vibes))
    ensures IsMatch(Keywords(types), v) && VibeScore(Some(types), Some(vibes)) < 10
         ==> VibeScore(Some(types), Some(vibes + [v])) > VibeScore(Some(types), Some(vibes))
  {
    CountMatchesSnoc(Keywords(types), vibes, v);
  }

  /** A vibe equal, up to letter case, to one of the venue's types always matches. */
  lemma VibeNamingATypeMatches(types: seq<string>, i: nat, vibe: string)
    requires i < |types| && ToLower(vibe) == ToLower(types[i])
    ensures IsMatch(Keywords(types), vibe)
  {
    JoinContainsPart(types, " ", i);
    ContainsToLower(Join(types, " "), types[i]);
  }

  /** A venue typed "restaurant" matches the wanted vibe "casual". */
  lemma CasualMatchesRestaurant(types: seq<string>, i: nat)
    requires i < |types| && types[i] == "restaurant"
    ensures IsMatch(Keywords(types), "casual")
  {
    JoinContainsPart(types, " ", i);
    ContainsToLower(Join(types, " "), types[i]);
    assert ToLower("restaurant") == "restaurant";
  }

  /** The three summaries `generateMockSummary` can write. */
  datatype Tier = Excellent | Decent | Poor

  /** Tier by the average `(budgetScore + vibeScore) / 2`, a JavaScript number compared with 8 and 6. */
  function SummaryTier(budgetScore: int, vibeScore: int): (t: Tier)
    ensures t == Excellent <==> budgetScore + vibeScore >= 16
    ensures t == Decent <==> 12 <= budgetScore + vibeScore < 16
    ensures t == Poor <==> budgetScore + vibeScore < 12
  {
    var overall := (budgetScore + vibeScore) as real / 2.0;
    if overall >= 8.0 then Excellent else if overall >= 6.0 then Decent else Poor
  }

  /** `${preferences.vibes?.slice(0, 2).join(" and ")}`: "undefined" when there are no vibes. */
  function FirstTwoVibes(vibes: Option<seq<string>>): string {
    match vibes
    case None => "undefined"
    case Some(vs) => Join(vs[..if |vs| < 2 then |vs| else 2], " and ")
  }

  /** `preferences.vibes?.slice(0, 1)[0] || "dining"`: an absent or empty first vibe falls back to "dining". */
  function FirstVibeOrDining(vibes: Option<seq<string>>): (s: string)
    ensures s != ""
    ensures vibes.Some? && vibes.value != [] && vibes.value[0] != "" ==> s == vibes.value[0]
  {
    if vibes.Some? && vibes.value != [] && vibes.value[0] != "" then vibes.value[0] else "dining"
  }

  /** The words that follow the venue name, which differ between the three tiers. */
  function SummaryLead(t: Tier): string {
    match t
    case Excellent => " is an"
    case Decent => " is a "
    case Poor => " may"
  }

  /** The rest of the summary after its lead. */
  function SummaryTail(t: Tier, budget: Option<string>, vibes: Option<seq<string>>): string {
    match t
    case Excellent =>
      " excellent match for your preferences. The " + budget.GetOr("undefined")
      + " pricing aligns well with your budget, and the atmosphere matches your desired "
      + FirstTwoVibes(vibes) + " vibes."
    case Decent =>
      "decent option that partially matches your preferences for "
      + FirstVibeOrDining(vibes) + " experiences, though some aspects might not be perfect."
    case Poor =>
      " not be the best fit for your preferences, particularly regarding budget and atmosphere expectations."
  }

  /**
   * `generateMockSummary(venue, preferences, budgetScore, vibeScore)`. The
   * sentence opens with the venue name, and the three sentences are told
   * apart by their opening words: reading the tier back off the summary gives
   * the tier that chose it.
   */
  function MockSummary(venueName: string, budget: Option<string>, vibes: Option<seq<string>>,
                       budgetScore: int, vibeScore: int): (s: string)
    ensures StartsWith(s, venueName)
    ensures TierOfSummary(venueName, s) == SummaryTier(budgetScore, vibeScore)
  {
    var t := SummaryTier(budgetScore, vibeScore);
    var tail := SummaryTail(t, budget, vibes);
    TierOfLead(venueName, t, tail);
    NamePrefix(venueName, SummaryLead(t), tail);
    venueName + SummaryLead(t) + tail
  }

  lemma NamePrefix(a: string, b: string, c: string)
    ensures StartsWith(a + b + c, a)
  {
    assert (a + b + c)[..|a|] == a;
  }

  /** Reads the tier back off a summary for the venue named `venueName`. */
  function TierOfSummary(venueName: string, summary: string): Tier {
    if StartsWith(summary, venueName + " is an") then Excellent
    else if StartsWith(summary, venueName + " is a ") then Decent
    else Poor
  }

  lemma StartsWithFront(a: string, b: string, c: string)
    ensures StartsWith(a + b + c, a + b)
  {
    assert (a + b + c)[..|a + b|] == a + b;
  }

  /** The character of a summary at an offset into its lead. */
  lemma LeadChar(venueName: string, lead: string, tail: string, i: nat)
    requires i < |lead|
    ensures (venueName + lead + tail)[|venueName| + i] == lead[i]
  {
  }

  /** A summary with the lead of tier `t`, whatever follows it, reads back as `t`. */
  lemma TierOfLead(venueName: string, t: Tier, tail: string)
    ensures TierOfSummary(venueName, venueName + SummaryLead(t) + tail) == t
  {
    var lead := SummaryLead(t);
    var k := |venueName|;
    StartsWithFront(venueName, lead, tail);
    match t
    case Excellent =>
    case Decent =>
      LeadChar(venueName, lead, tail, 5);
      assert (venueName + " is an")[k + 5] == 'n';
    case Poor =>
      LeadChar(venueName, lead, tail, 1);
      assert (venueName + " is an")[k + 1] == 'i' && (venueName + " is a ")[k + 1] == 'i';
  }
}
