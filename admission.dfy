/** The admission gate of `pointcloud_callback`: a batch goes on only when
    the transform lookup succeeded and the transform's stamp is at most 0.1 s
    after the batch's stamp. */
module Admission {
  import opened Wrappers
  import opened Transforming

  /** The three exceptions of the lookup that the callback catches. */
  datatype LookupFailure = LookupError | ConnectivityError | ExtrapolationError

  /** Largest accepted `transform stamp - batch stamp`, in seconds. */
  const MaxSkewSeconds: real := 0.1

  /** `(transform stamp - batch stamp)` in seconds, from nanosecond stamps. */
  function SkewSeconds(transformStamp: int, batchStamp: int): real {
    (transformStamp - batchStamp) as real / 1_000_000_000.0
  }

  /** The transform a batch stamped `batchStamp` is processed with, or `None`
      when the batch is dropped. The skew test is one-sided, as written: a
      transform older than the batch always passes. */
  function Admit(lookup: Result<Transform, LookupFailure>, batchStamp: int): (admitted: Option<Transform>)
    ensures admitted.Some? <==> lookup.Success? && lookup.value.stamp - batchStamp <= 100_000_000
    ensures admitted.Some? ==> admitted.value == lookup.value
  {
    match lookup
    case Failure(_) => None
    case Success(t) => if SkewSeconds(t.stamp, batchStamp) > MaxSkewSeconds then None else Some(t)
  }

  /** How the gate ends as written: the batch is dropped, the callback
      raises, or the batch goes on with a transform. */
  datatype GateOutcome = Dropped | Raised | Admitted(transform: Transform)

  /** The gate as written. Both header stamps are `builtin_interfaces` Time
      messages, which have no subtraction, so after any successful lookup
      the skew computation raises a TypeError that the callback does not
      catch. */
  function GateAsWritten(lookup: Result<Transform, LookupFailure>, batchStamp: int): (o: GateOutcome)
    ensures !o.Admitted?
    ensures o.Dropped? <==> lookup.Failure?
  {
    match lookup
    case Failure(_) => Dropped
    case Success(_) => Raised
  }

  /** A transform stamped exactly at the batch's time has no skew, and `Admit`
      lets the batch through, but the gate as written raises on it. */
  lemma StampSubtractionRaises(t: Transform, batchStamp: int)
    ensures Admit(Success(t.(stamp := batchStamp)), batchStamp) == Some(t.(stamp := batchStamp))
    ensures GateAsWritten(Success(t.(stamp := batchStamp)), batchStamp) == Raised
  {
  }

  /** A transform 0.05 s after the batch is used; one 0.2 s after is not;
      one a whole second before the batch is used. */
  lemma AdmitScenario(t: Transform, batchStamp: int)
    ensures Admit(Success(t.(stamp := batchStamp + 50_000_000)), batchStamp).Some?
    ensures Admit(Success(t.(stamp := batchStamp + 200_000_000)), batchStamp).None?
    ensures Admit(Success(t.(stamp := batchStamp - 1_000_000_000)), batchStamp).Some?
  {
  }
}
