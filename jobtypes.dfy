/**
 * The enrichment job types and the coercion of a request's loosely-typed
 * `jobType` field into one of them.
 */
module JobTypes {
  import opened Wrappers
  import opened JsonValue

  /** `JOB_TYPES`, in declaration order. */
  const JobTypeNames: seq<string> := ["full_enrichment", "description", "attributes", "faq", "schema", "insight"]

  /** The fallback `coerceJobType` uses when its caller gives none. */
  const DefaultJobType: string := "full_enrichment"

  /** `isJobType(value)`: a string naming one of the job types. */
  predicate IsJobType(value: Json) {
    value.JStr? && value.s in JobTypeNames
  }

  /**
   * `coerceJobType(value, fallback)`, where an absent property is `None`: the
   * value itself when it names a job type, the fallback otherwise.
   */
  function CoerceJobType(value: Option<Json>, fallback: string): (t: string)
    requires fallback in JobTypeNames
    ensures t in JobTypeNames
    ensures t == fallback || (value.Some? && value.value == JStr(t))
  {
    if value.Some? && IsJobType(value.value) then value.value.s else fallback
  }

  /** The six names are distinct. */
  lemma JobTypeNamesDistinct()
    ensures forall i, j :: 0 <= i < j < |JobTypeNames| ==> JobTypeNames[i] != JobTypeNames[j]
  {
  }

  /** `isJobType` holds exactly of the six strings. */
  lemma IsJobTypeIff(value: Json)
    ensures IsJobType(value) <==> exists i :: 0 <= i < |JobTypeNames| && value == JStr(JobTypeNames[i])
  {
    if IsJobType(value) {
      var i :| 0 <= i < |JobTypeNames| && JobTypeNames[i] == value.s;
      assert value == JStr(JobTypeNames[i]);
    }
  }

  /** A recognised job type is kept; anything else gives the fallback. */
  lemma CoerceKeepsOrFallsBack(value: Option<Json>, fallback: string)
    requires fallback in JobTypeNames
    ensures value.Some? && IsJobType(value.value) ==> CoerceJobType(value, fallback) == value.value.s
    ensures !(value.Some? && IsJobType(value.value)) ==> CoerceJobType(value, fallback) == fallback
  {
  }

  /** With the default fallback, a missing, non-string or unknown job type becomes `full_enrichment`. */
  lemma CoerceDefault(value: Option<Json>)
    ensures CoerceJobType(value, DefaultJobType) in JobTypeNames
    ensures value.None? ==> CoerceJobType(value, DefaultJobType) == "full_enrichment"
    ensures value.Some? && !value.value.JStr? ==> CoerceJobType(value, DefaultJobType) == "full_enrichment"
  {
  }

  /** Coercing a coerced job type changes nothing. */
  lemma CoerceIdempotent(value: Option<Json>, fallback: string, other: string)
    requires fallback in JobTypeNames && other in JobTypeNames
    ensures CoerceJobType(Some(JStr(CoerceJobType(value, fallback))), other) == CoerceJobType(value, fallback)
  {
  }
}
