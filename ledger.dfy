/** The completion ledger: the file of processed person uuids, one per line,
    read once at the start of a run and appended to as records are handled. */
module Ledger {

  /** The uuids a ledger holding `lines` marks as processed. */
  function LedgerSet(lines: seq<string>): (s: set<string>)
    ensures forall u :: u in s <==> u in lines
  {
    set u | u in lines
  }

  /** Appending one uuid adds exactly that uuid to the processed set. */
  lemma SavedIsLoaded(lines: seq<string>, uuid: string)
    ensures LedgerSet(lines + [uuid]) == LedgerSet(lines) + {uuid}
  {
    assert forall u :: u in lines + [uuid] <==> u in lines || u == uuid;
  }

  class LedgerFile {
    /** The lines of the ledger file; a missing file has none. */
    var lines: seq<string>

    constructor (lines: seq<string>)
      ensures this.lines == lines
    {
      this.lines := lines;
    }

    /** `load_processed_uuids`: the set of every uuid in the file. */
    method LoadProcessedUuids() returns (processed: set<string>)
      ensures forall u :: u in processed <==> u in lines
    {
      processed := LedgerSet(lines);
    }

    /** `save_processed_uuid`: append one uuid as a new line. */
    method SaveProcessedUuid(uuid: string)
      modifies this
      ensures lines == old(lines) + [uuid]
      ensures LedgerSet(lines) == LedgerSet(old(lines)) + {uuid}
    {
      SavedIsLoaded(lines, uuid);
      lines := lines + [uuid];
    }
  }
}
