/** What several parts of the program speak about: specialists, what a finding says, and how the
    strength of a signal was measured. */
module Vocabulary {

  /** Identifiers are only ever compared. */
  type EvidenceId = int

  datatype AgentName = LOG | METRIC | DEPLOYMENT

  datatype FindingType = Signal | RootCause | Contradiction | Gap

  datatype Cause = UnknownCause | KnownCause(code: int)

  /** Strengths are only comparable within one basis. */
  datatype Basis = Relative | PresenceOnly | Legacy
}
