// Stored records and the metadata that arbitration and the write path look at.
module MemoryRecords {
  import opened Reals
  import opened Wrappers

  type Key = string

  datatype Meta = Meta(
    isSuperseded: bool,
    superseded: bool,
    supersededBy: Option<Key>,
    supersededAt: Option<nat>,
    supersedes: Option<Key>,
    isBeliefRevision: bool,
    supersededKey: Option<Key>,
    action: string,
    sourceType: string,
    ruleMelted: bool,
    conflictTest: bool,
    conflictWarning: bool,
    tombstonePending: bool,
    priorValue: Option<string>,
    revisionCount: nat,
    other: map<string, string>)

  datatype Rec = Rec(value: string, confidence: Unit, meta: Meta)

  // The record carries one of the flags by which arbitration ignores it.
  predicate IsRetired(r: Rec) { r.meta.isSuperseded || r.meta.superseded }
}
