/** The paper card: which status changes it offers, the verdict it shows,
    the colour of that verdict and the icon in its corner. */
module Card {
  import opened Types
  import opened Records

  /** The status-change buttons of a card, in the order they appear. There are
      none when the card is rendered without a status-change handler. */
  function OfferedTransitions(status: PaperStatus, canChange: bool): (offers: seq<PaperStatus>)
    ensures Submitted in offers <==> canChange && status == Writing
    ensures Rejected in offers <==> canChange && status == Submitted
    ensures Accepted in offers <==> canChange && status != Accepted && status != Rejected
    ensures Writing !in offers && Target !in offers
    ensures forall i, j :: 0 <= i < j < |offers| ==> offers[i] != offers[j]
  {
    if !canChange then []
    else (if status == Writing then [Submitted] else [])
         + (if status == Submitted then [Rejected] else [])
         + (if status != Accepted && status != Rejected then [Accepted] else [])
  }

  /** The transition relation of the workflow: `to` is offered on a card in `from`. */
  predicate Offers(from: PaperStatus, to: PaperStatus)
  {
    to in OfferedTransitions(from, true)
  }

  /** Accepted and Rejected are terminal: their cards offer no status change. */
  lemma TerminalOffersNothing(status: PaperStatus, canChange: bool)
    ensures OfferedTransitions(status, canChange) == [] <==>
            !canChange || status == Accepted || status == Rejected
  {
    if canChange && status != Accepted && status != Rejected {
      assert Accepted in OfferedTransitions(status, canChange);
    }
  }

  /** Each open status is offered exactly its buttons: a target only Accept,
      a draft Submit then Accept, a submitted paper Reject then Accept. */
  lemma OffersOfOpenStatus(status: PaperStatus)
    ensures status == Target ==> OfferedTransitions(status, true) == [Accepted]
    ensures status == Writing ==> OfferedTransitions(status, true) == [Submitted, Accepted]
    ensures status == Submitted ==> OfferedTransitions(status, true) == [Rejected, Accepted]
  {
  }

  /** Rank of a status along the workflow Target, Writing, Submitted, then a verdict. */
  function Stage(s: PaperStatus): (n: nat)
    ensures n <= 3
    ensures n == 3 <==> s == Accepted || s == Rejected
  {
    match s
    case Target => 0
    case Writing => 1
    case Submitted => 2
    case Accepted => 3
    case Rejected => 3
  }

  /** Every offered transition moves strictly forward, so none leads back to
      the current status and at most three changes reach a verdict. */
  lemma OffersMoveForward(from: PaperStatus, to: PaperStatus)
    requires Offers(from, to)
    ensures Stage(from) < Stage(to)
    ensures from != to
  {
  }

  /** What the card shows as its current verdict. */
  datatype Verdict = Ascended | Banished | Shown(result: PaperResult)

  /** The verdict label: Accepted and Rejected statuses take precedence over
      the recorded result, which is shown otherwise. */
  function VerdictOf(p: PaperRecord): (v: Verdict)
    ensures v == Ascended <==> p.status == Accepted
    ensures v == Banished <==> p.status == Rejected
    ensures v.Shown? ==> v.result == p.result
  {
    if p.status == Accepted then Ascended
    else if p.status == Rejected then Banished
    else Shown(p.result)
  }

  /** The text colours a verdict can take. `AbyssRed` is the rejected-card
      red, a shade deeper than the `Red` of a rejected result. */
  datatype Colour = AbyssRed | Emerald | Red | Orange | Slate

  /** The colour of the verdict: a Rejected status overrides the result;
      otherwise it follows the result, with Slate for a pending one. */
  function ResultColour(status: PaperStatus, result: PaperResult): (c: Colour)
    ensures c == AbyssRed <==> status == Rejected
    ensures status != Rejected ==>
              (c == Emerald <==> result == ResultAccepted)
              && (c == Red <==> result == ResultRejected)
              && (c == Orange <==> result == Revision)
              && (c == Slate <==> result == Pending)
  {
    if status == Rejected then AbyssRed
    else match result
      case ResultAccepted => Emerald
      case ResultRejected => Red
      case Revision => Orange
      case Pending => Slate
  }

  /** A status change made from a card agrees with the card's verdict and
      colour: accepting shows Ascended in Emerald, rejecting Banished in the
      abyss red, and any other move keeps the colour of the old result. */
  lemma StatusChangeShownOnCard(p: PaperRecord, s: PaperStatus)
    ensures var q := WithStatus(p, s);
      (s == Accepted ==> VerdictOf(q) == Ascended && ResultColour(q.status, q.result) == Emerald)
      && (s == Rejected ==> VerdictOf(q) == Banished && ResultColour(q.status, q.result) == AbyssRed)
      && (s != Accepted && s != Rejected && p.status != Rejected ==>
            ResultColour(q.status, q.result) == ResultColour(p.status, p.result))
  {
  }

  /** The icons a card can carry in its corner. */
  datatype Icon = IconA | IconB | IconC | IconOther | IconRejected

  /** The tier icon; every tier besides A, B and C falls to the Other icon. */
  function TierIcon(tier: ConferenceTier): (i: Icon)
    ensures i != IconRejected
    ensures i == IconOther <==> tier != A && tier != B && tier != C
  {
    match tier
    case A => IconA
    case B => IconB
    case C => IconC
    case _ => IconOther
  }

  /** Distinct tiers have distinct icons. */
  lemma TierIconInjective(t1: ConferenceTier, t2: ConferenceTier)
    requires TierIcon(t1) == TierIcon(t2)
    ensures t1 == t2
  {
  }

  /** The corner icon of a card: the rejected icon replaces the tier icon. */
  function CardIcon(p: PaperRecord): (i: Icon)
    ensures i == IconRejected <==> p.status == Rejected
    ensures p.status != Rejected ==> i == TierIcon(p.tier)
  {
    if p.status == Rejected then IconRejected else TierIcon(p.tier)
  }
}
