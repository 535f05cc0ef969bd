/**
 * The placeholder mapping from an internal score to a peer percentile
 * (backend/services/personal_service.py): the score clamped to [0, 1].
 */
module PersonalService {

  /** `compute_peer_percentile`. */
  function ComputePeerPercentile(score: real): (r: real)
    ensures 0.0 <= r <= 1.0
    ensures 0.0 <= score <= 1.0 ==> r == score
    ensures score < 0.0 ==> r == 0.0
    ensures score > 1.0 ==> r == 1.0
  {
    if score < 0.0 then 0.0
    else if score > 1.0 then 1.0
    else score
  }

  /** A larger score never gets a smaller percentile. */
  lemma PercentileMonotone(a: real, b: real)
    requires a <= b
    ensures ComputePeerPercentile(a) <= ComputePeerPercentile(b)
  {
  }

  /** Clamping a percentile again changes nothing. */
  lemma PercentileIdempotent(x: real)
    ensures ComputePeerPercentile(ComputePeerPercentile(x)) == ComputePeerPercentile(x)
  {
  }
}
