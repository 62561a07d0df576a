/** The two badge lookups of a challenge card: category colour and proof-type icon. */
module ChallengeCard {
  import opened Wrappers

  /** The colour classes of the five known categories. */
  const CategoryColors: map<string, string> := map[
    "Social" := "bg-accent-100 text-accent-700",
    "Education" := "bg-secondary-100 text-secondary-700",
    "Lifestyle" := "bg-success-100 text-success-700",
    "Creative" := "bg-purple-100 text-purple-700",
    "Tech" := "bg-blue-100 text-blue-700"
  ]

  const DefaultColor: string := "bg-gray-100 text-gray-700"

  /**
   * `getCategoryColor`: the table entry for the category, or the gray
   * default when the category is absent or unknown (or its entry is empty,
   * as `||` would have it; no entry is).
   */
  function CategoryColor(category: Option<string>): (r: string)
    ensures r in CategoryColors.Values || r == DefaultColor
    ensures r == DefaultColor <==> (category.None? || category.value !in CategoryColors)
    ensures category.Some? && category.value in CategoryColors ==> r == CategoryColors[category.value]
  {
    var entry := if category.Some? && category.value in CategoryColors then CategoryColors[category.value] else "";
    if entry != "" then entry else DefaultColor
  }

  /** The five known categories get their own listed classes. */
  lemma KnownCategoryColors()
    ensures CategoryColor(Some("Social")) == "bg-accent-100 text-accent-700"
    ensures CategoryColor(Some("Education")) == "bg-secondary-100 text-secondary-700"
    ensures CategoryColor(Some("Lifestyle")) == "bg-success-100 text-success-700"
    ensures CategoryColor(Some("Creative")) == "bg-purple-100 text-purple-700"
    ensures CategoryColor(Some("Tech")) == "bg-blue-100 text-blue-700"
  {
  }

  /** Distinct known categories get distinct colours, so the colour identifies the category. */
  lemma CategoryColorsDistinct(a: string, b: string)
    requires a in CategoryColors && b in CategoryColors && a != b
    ensures CategoryColor(Some(a)) != CategoryColor(Some(b))
  {
  }

  const ImageIcon: string := "\U{1F4F7}"    // camera
  const TextIcon: string := "\U{1F4DD}"     // memo
  const LinkIcon: string := "\U{1F517}"     // link
  const DefaultIcon: string := "\U{1F4C4}"  // page

  /** `getProofTypeIcon`: a strict-equality switch over the proof type with a default. */
  function ProofTypeIcon(proofType: Option<string>): (r: string)
    ensures r in {ImageIcon, TextIcon, LinkIcon, DefaultIcon}
    ensures r == ImageIcon <==> proofType == Some("image")
    ensures r == TextIcon <==> proofType == Some("text")
    ensures r == LinkIcon <==> proofType == Some("link")
    ensures r == DefaultIcon <==> proofType !in {Some("image"), Some("text"), Some("link")}
  {
    match proofType
    case Some("image") => ImageIcon
    case Some("text") => TextIcon
    case Some("link") => LinkIcon
    case _ => DefaultIcon
  }
}
