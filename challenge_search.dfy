/**
 * The challenge list filter of the home page. Both home page variants
 * (the app-router page and the pages-router page) build the same filter
 * over the same four mock challenges; it is modelled once here.
 */
module ChallengeSearch {
  import JsText
  import JsArray

  /** One entry of the mock challenge list, with the fields the list shows. */
  datatype Challenge = Challenge(
    id: nat,
    title: string,
    description: string,
    reward: string,
    category: string,
    timeLeft: string,
    participants: nat,
    status: string,
    creator: string,
    proofType: string)

  /** The category choice that disables category filtering. */
  const AllCategories: string := "All"

  /** `term` occurs in `text` once both are lower-cased. */
  ghost predicate OccursIgnoringCase(term: string, text: string) {
    exists i :: JsText.OccursAt(JsText.ToLower(text), JsText.ToLower(term), i)
  }

  /** The lower-cased search term occurs in the lower-cased title or the lower-cased description. */
  predicate MatchesSearch(c: Challenge, searchTerm: string) {
    || JsText.Includes(JsText.ToLower(c.title), JsText.ToLower(searchTerm))
    || JsText.Includes(JsText.ToLower(c.description), JsText.ToLower(searchTerm))
  }

  predicate MatchesCategory(c: Challenge, selectedCategory: string) {
    selectedCategory == AllCategories || c.category == selectedCategory
  }

  /** The callback handed to `filter`. */
  predicate Matches(c: Challenge, searchTerm: string, selectedCategory: string)
    ensures Matches(c, searchTerm, selectedCategory) <==>
      && (OccursIgnoringCase(searchTerm, c.title) || OccursIgnoringCase(searchTerm, c.description))
      && (selectedCategory == AllCategories || c.category == selectedCategory)
  {
    MatchesSearch(c, searchTerm) && MatchesCategory(c, selectedCategory)
  }

  /**
   * `filteredChallenges`: keeps exactly the challenges that match both the
   * search term and the selected category.
   */
  function FilterChallenges(challenges: seq<Challenge>, searchTerm: string, selectedCategory: string): (r: seq<Challenge>)
    ensures |r| <= |challenges|
    ensures forall k :: 0 <= k < |r| ==> r[k] in challenges
    ensures forall k :: 0 <= k < |r| ==>
      && (OccursIgnoringCase(searchTerm, r[k].title) || OccursIgnoringCase(searchTerm, r[k].description))
      && (selectedCategory == AllCategories || r[k].category == selectedCategory)
    ensures forall c ::
      && c in challenges
      && (OccursIgnoringCase(searchTerm, c.title) || OccursIgnoringCase(searchTerm, c.description))
      && (selectedCategory == AllCategories || c.category == selectedCategory)
      ==> c in r
  {
    var r := JsArray.Filter(challenges, c => Matches(c, searchTerm, selectedCategory));
    assert forall k :: 0 <= k < |r| ==> MatchesSearch(r[k], searchTerm) && MatchesCategory(r[k], selectedCategory);
    r
  }

  /**
   * The result keeps the matching challenges in their list order: its k-th
   * entry is the challenge at the k-th matching position.
   */
  lemma FilterChallengesKeepsOrder(challenges: seq<Challenge>, searchTerm: string, selectedCategory: string)
    ensures JsArray.IsOrderedSubsequence(FilterChallenges(challenges, searchTerm, selectedCategory), challenges)
    ensures JsArray.SelectsAt(FilterChallenges(challenges, searchTerm, selectedCategory), challenges,
      JsArray.KeptIndices(challenges, c => Matches(c, searchTerm, selectedCategory)))
  {
    JsArray.FilterSelectsKeptIndices(challenges, c => Matches(c, searchTerm, selectedCategory));
    JsArray.FilterIsOrderedSubsequence(challenges, c => Matches(c, searchTerm, selectedCategory));
  }

  /** The search term is seen only through its lower-cased form: case never changes the result. */
  lemma FilterChallengesIgnoresSearchCase(challenges: seq<Challenge>, term1: string, term2: string, selectedCategory: string)
    requires JsText.ToLower(term1) == JsText.ToLower(term2)
    ensures FilterChallenges(challenges, term1, selectedCategory) == FilterChallenges(challenges, term2, selectedCategory)
  {
    JsArray.FilterCongruent(challenges,
      c => Matches(c, term1, selectedCategory),
      c => Matches(c, term2, selectedCategory));
  }

  /** In particular, searching for a term and for its lower-cased form gives the same list. */
  lemma FilterChallengesLowerCasedTerm(challenges: seq<Challenge>, searchTerm: string, selectedCategory: string)
    ensures FilterChallenges(challenges, JsText.ToLower(searchTerm), selectedCategory)
         == FilterChallenges(challenges, searchTerm, selectedCategory)
  {
    JsText.ToLowerIdempotent(searchTerm);
    FilterChallengesIgnoresSearchCase(challenges, JsText.ToLower(searchTerm), searchTerm, selectedCategory);
  }

  /** The initial state of the page, an empty search and "All", lists every challenge. */
  lemma FilterChallengesInitialState(challenges: seq<Challenge>)
    ensures FilterChallenges(challenges, "", AllCategories) == challenges
  {
    forall c | c in challenges ensures Matches(c, "", AllCategories) {
      JsText.IncludesEmpty(JsText.ToLower(c.title));
    }
    JsArray.FilterKeepsAll(challenges, c => Matches(c, "", AllCategories));
  }

  /** The hard-coded challenge list shown by both home pages. */
  const MockChallenges: seq<Challenge> := [
    Challenge(1, "Share Your Pet's Cutest Moment",
      "Post a photo or video of your pet doing something adorable!",
      "0.01 ETH", "Social", "2 days", 23, "active", "0xPetLover123", "image"),
    Challenge(2, "Name a Historical Figure from the 1800s",
      "Tell us about an interesting historical figure from the 19th century and why they're significant.",
      "0.005 ETH", "Education", "5 days", 41, "active", "0xHistoryBuff", "text"),
    Challenge(3, "Show Us Your Favorite Recipe",
      "Share a photo of a dish you made along with the recipe!",
      "0.015 ETH", "Lifestyle", "1 day", 67, "active", "0xChefMaster", "image"),
    Challenge(4, "Recommend a Great Book",
      "Share a book recommendation with a brief review explaining why others should read it.",
      "0.008 ETH", "Education", "3 days", 15, "active", "0xBookworm", "text")
  ]

  /** What a home page lists for the current search term and category choice. */
  function HomeFilteredChallenges(searchTerm: string, selectedCategory: string): (r: seq<Challenge>)
    ensures |r| <= 4
    ensures forall k :: 0 <= k < |r| ==> r[k] in MockChallenges
  {
    FilterChallenges(MockChallenges, searchTerm, selectedCategory)
  }

  /** No mock challenge is in the Creative or Tech category, so choosing either empties the list. */
  lemma HomeCreativeOrTechIsEmpty(searchTerm: string)
    ensures HomeFilteredChallenges(searchTerm, "Creative") == []
    ensures HomeFilteredChallenges(searchTerm, "Tech") == []
  {
    JsArray.FilterKeepsNone(MockChallenges, c => Matches(c, searchTerm, "Creative"));
    JsArray.FilterKeepsNone(MockChallenges, c => Matches(c, searchTerm, "Tech"));
  }

  /** On first render (empty search, "All") a home page lists all four mock challenges in order. */
  lemma HomeInitialListsAllFour()
    ensures HomeFilteredChallenges("", AllCategories) == MockChallenges
    ensures |HomeFilteredChallenges("", AllCategories)| == 4
  {
    FilterChallengesInitialState(MockChallenges);
  }
}
