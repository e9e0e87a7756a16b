/**
 * The admin attempts list (app/admin/attempts/page.tsx): each attempt is labelled with
 * `ListPages.DisplayNameForId` and its score badge is coloured here.  Fetching the lists is
 * not part of this model.
 */
module AttemptsPage {

  import opened ListPages

  /** `getScoreColor`: 8 and above is green, 5 to 7 yellow, below 5 red. */
  function ScoreColor(score: int): (t: Tone)
    ensures t == Green <==> score >= 8
    ensures t == Yellow <==> 5 <= score < 8
    ensures t == Red <==> score < 5
  {
    Badge(score, 8, 5)
  }
}
