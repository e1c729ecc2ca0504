/** One question card: its expand toggle and the height its answer panel is
    animated to. The content's scroll height is a measurement of the rendered
    answer, so it is a parameter. */
module QuestionCard {
  import InterviewPrep

  /** The header's click: asks the page for the opposite of the current state. */
  function ToggleExpand(isExpanded: bool): (r: bool)
    ensures r != isExpanded
  {
    !isExpanded
  }

  /** Two clicks bring the card back to where it was. */
  lemma ToggleTwice(isExpanded: bool)
    ensures ToggleExpand(ToggleExpand(isExpanded)) == isExpanded
  {
  }

  /** The answer panel's height: closed when collapsed, and the measured
      content plus a 10 pixel margin when expanded. */
  function AnswerHeight(isExpanded: bool, scrollHeight: nat): (h: nat)
    ensures h > 0 <==> isExpanded
    ensures isExpanded ==> h - 10 == scrollHeight
  {
    if isExpanded then scrollHeight + 10 else 0
  }

  /** A click on a card, routed through the page's expansion map, flips how
      that card reads and how its panel is sized, and no other card changes. */
  lemma ClickFlipsOnlyThisCard(m: InterviewPrep.Expanded, key: string, scrollHeight: nat)
    ensures var after := InterviewPrep.SetExpanded(m, key, ToggleExpand(InterviewPrep.IsExpanded(m, key)));
            && InterviewPrep.IsExpanded(after, key) != InterviewPrep.IsExpanded(m, key)
            && (AnswerHeight(InterviewPrep.IsExpanded(after, key), scrollHeight) == 0
                <==> AnswerHeight(InterviewPrep.IsExpanded(m, key), scrollHeight) > 0)
            && forall k :: k != key ==> InterviewPrep.IsExpanded(after, k) == InterviewPrep.IsExpanded(m, k)
  {
  }
}
