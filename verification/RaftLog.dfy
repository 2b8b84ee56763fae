/** Log entries and the index arithmetic of a node's log. */
module RaftLog {

  datatype NodeName = NodeName(addr: string)

  datatype CommandKind = Normal | Trans | Snapshot | TransNew

  datatype Entry = Entry(index: int, term: nat, kind: CommandKind, data: string)

  type Log = seq<Entry>

  /** The index reported for an empty log (default_index_cursor). */
  const NO_INDEX := -1
  /** The term reported for an empty log (default_term_cursor). */
  const NO_TERM := 0

  function BaseIndex(log: Log): int {
    if log == [] then NO_INDEX else log[0].index
  }

  function LastIndex(log: Log): int {
    if log == [] then NO_INDEX else log[|log| - 1].index
  }

  function LastTerm(log: Log): nat {
    if log == [] then NO_TERM else log[|log| - 1].term
  }

  /** Indices are non-negative and consecutive, so log[i - base] is the entry of index i. */
  ghost predicate Contiguous(log: Log) {
    && (log != [] ==> log[0].index >= 0)
    && forall i :: 0 <= i < |log| ==> log[i].index == log[0].index + i
  }

  lemma LastOf(log: Log)
    requires Contiguous(log) && log != []
    ensures BaseIndex(log) <= LastIndex(log) == BaseIndex(log) + |log| - 1
  {
  }

  /** The candidate's last entry is at least as recent as the end of `log`. */
  predicate UpToDate(lastTerm: nat, lastIndex: int, log: Log) {
    lastTerm > LastTerm(log) || (lastTerm == LastTerm(log) && lastIndex >= LastIndex(log))
  }

  /** a and b both reach length k and coincide on their first k entries. */
  ghost predicate Agree(a: Log, b: Log, k: nat) {
    k <= |a| && k <= |b| && forall i :: 0 <= i < k ==> a[i] == b[i]
  }
}
