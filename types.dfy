/** The record types of the paper tracker: venue tiers, the stages a paper
    moves through, the review result, and the paper record itself. */
module Types {

  /** Venue quality rank; `Other` is every venue outside A, B and C. */
  datatype ConferenceTier = A | B | C | Other

  /** The stage a paper is in; each stage is also one tab of the archive. */
  datatype PaperStatus = Accepted | Submitted | Writing | Target | Rejected

  /** The review outcome recorded on a paper. */
  datatype PaperResult = Pending | ResultAccepted | ResultRejected | Revision

  /** Record identifiers are opaque strings. */
  type PaperId = string

  /** A stored paper. Dates and scores are free text, as entered in the form. */
  datatype PaperRecord = PaperRecord(
    id: PaperId,
    title: string,
    conference: string,
    tier: ConferenceTier,
    status: PaperStatus,
    submissionDate: string,
    scoreReleaseDate: string,
    scores: string,
    rebuttalDate: string,
    finalScores: string,
    result: PaperResult,
    content: string,
    createdAt: int)

  /** What the paper form submits: every field of a record except `id`
      and `createdAt`, which the store supplies. */
  datatype PaperData = PaperData(
    title: string,
    conference: string,
    tier: ConferenceTier,
    status: PaperStatus,
    submissionDate: string,
    scoreReleaseDate: string,
    scores: string,
    rebuttalDate: string,
    finalScores: string,
    result: PaperResult,
    content: string)

  datatype Option<T> = None | Some(value: T)
}
