/**
 * The rating card: the shortened book summary, when the "ver mais" button
 * appears, and which parts the two variants show.
 */
module RatingCard {
  import opened Domain

  /** `MAX_SUMMARY_LENGTH`. */
  const MaxSummaryLength: nat := 180

  const Ellipsis: string := "..."

  /**
   * `summary.substring(0, MAX_SUMMARY_LENGTH).concat('...')`: the first
   * min(180, length) characters followed by "...", so at most 183 characters,
   * always ending in the ellipsis, with a prefix of the summary before it.
   */
  function DisplayedSummary(summary: string): (shown: string)
    ensures var kept := if |summary| < MaxSummaryLength then |summary| else MaxSummaryLength;
      && |shown| == kept + |Ellipsis|
      && |shown| <= MaxSummaryLength + |Ellipsis|
      && shown[kept..] == Ellipsis
      && shown[..kept] == summary[..kept]
  {
    (if |summary| <= MaxSummaryLength then summary else summary[..MaxSummaryLength]) + Ellipsis
  }

  /** A summary of at most 180 characters is shown whole, still followed by the ellipsis. */
  lemma ShortSummaryKeptWhole(summary: string)
    requires |summary| <= MaxSummaryLength
    ensures DisplayedSummary(summary) == summary + Ellipsis
  {
  }

  /** The "ver mais" button: it appears exactly when the shown text leaves part of the summary out. */
  predicate ShowsMoreButton(summary: string): (shown: bool)
    ensures shown <==> DisplayedSummary(summary) != summary + Ellipsis
  {
    if |summary| > MaxSummaryLength then
      assert |DisplayedSummary(summary)| < |summary + Ellipsis|;
      true
    else false
  }

  datatype Variant = Default | Compact

  /**
   * What a card shows besides the book: the header with the reviewer's avatar
   * and name, the relative time of the rating, and the rate drawn as stars or
   * written as a number.
   */
  datatype CardParts = CardParts(userHeader: bool, relativeTime: bool, starRate: bool, numericRate: bool)

  /**
   * `variant = 'default'`: the default variant shows the header, with the time
   * and the stars in it; the compact one shows the time and the numeric rate
   * above the book instead. Every card shows the time, and exactly one form of
   * the rate.
   */
  function Layout(variant: Option<Variant>): (parts: CardParts)
    ensures parts.userHeader <==> variant != Some(Compact)
    ensures parts.relativeTime
    ensures parts.starRate <==> parts.userHeader
    ensures parts.numericRate <==> !parts.starRate
  {
    var v := if variant.None? then Default else variant.value;
    CardParts(v == Default, true, v == Default, v == Compact)
  }
}
