/**
 The provenance tables of `app/db/models.py` as the extraction, verification, detection,
 finding and reporting services see them.

 A row is named by its position in its table, standing for the uuid4 it gets in the source.
 A text is what redaction and tokenization leave of it.
 */
module Knowledge {

  datatype Status = Draft | Verified | Quarantined
  datatype Score = Unsupported | Partial | Full
  datatype Method = Extract | Verify
  datatype Tier = T1 | T2 | T3

  /** The word set of a redacted text, and whether the text is blank. */
  datatype Prose = Prose(tokens: set<string>, blank: bool)

  datatype Source = Source(run: nat, uri: string)
  datatype Passage = Passage(source: nat, text: Prose)
  datatype Statement = Statement(passage: nat, run: nat, text: Prose, status: Status)
  datatype Link = Link(statement: nat, passage: nat, run: nat, score: Score, how: Method, at: nat)
  datatype Finding = Finding(run: nat, domain: string, tier: Tier)
  datatype ConflictStatus = Flagged | Confirmed | Rejected
  datatype Contradiction = Contradiction(run: nat, a: nat, b: nat, status: ConflictStatus)
  datatype Conclusion = Conclusion(run: nat, humanReview: bool)

  datatype Audit =
    | Verdict(statement: nat, decision: Status, score: Score, judge: bool)
    | Conflict(row: nat)
    | Concluded(conclusion: nat, cited: seq<nat>)

  /** `clock` is the time of the latest commit; the last pair tables map findings and conclusions to statements. */
  datatype Db = Db(
    sources: seq<Source>,
    passages: seq<Passage>,
    statements: seq<Statement>,
    links: seq<Link>,
    audits: seq<Audit>,
    findings: seq<Finding>,
    findingStatements: seq<(nat, nat)>,
    contradictions: seq<Contradiction>,
    conclusions: seq<Conclusion>,
    conclusionEvidence: seq<(nat, nat)>,
    clock: nat)

  const EMPTY := Db([], [], [], [], [], [], [], [], [], [], 0)

  /** The database; assigning `db` is a commit. */
  class Store {
    var db: Db

    constructor ()
      ensures db == EMPTY
    {
      db := EMPTY;
    }
  }
}
