/** Text operations of the runtime library, kept abstract. */
module Texts {

  /** Case folding and trimming, whatever they are. */
  datatype Text = Text(lower: string -> string, trim: string -> string)

  const METRICS: set<string> := {"cpu_percent", "memory_bytes", "private_bytes", "thread_count"}
  const OPS: set<string> := {">", ">=", "<", "<="}
  const ACTIONS: set<string> := {"alert", "kill", "suspend"}

  /** The keyword checks, spelled out as the switch statements spell them. */
  predicate KnownMetric(m: string)
    ensures KnownMetric(m) <==> m in METRICS
  {
    m == "cpu_percent" || m == "memory_bytes" || m == "private_bytes" || m == "thread_count"
  }

  predicate KnownOp(op: string)
    ensures KnownOp(op) <==> op in OPS
  {
    !(op != ">" && op != ">=" && op != "<" && op != "<=")
  }

  predicate KnownAction(action: string)
    ensures KnownAction(action) <==> action in ACTIONS
  {
    !(action != "alert" && action != "kill" && action != "suspend")
  }

  /** All that is assumed: trimming twice is trimming once, and the keywords are already folded and trimmed. */
  ghost predicate Lawful(t: Text) {
    && (forall s :: t.trim(t.trim(s)) == t.trim(s))
    && (forall k :: k in METRICS + ACTIONS ==> t.lower(t.trim(k)) == k)
    && (forall k :: k in OPS ==> t.trim(k) == k)
  }

  /** The assumptions are consistent. */
  lemma IdentityIsLawful()
    ensures Lawful(Text(s => s, s => s))
  {
  }
}
