/** What a Redis client is told about a command it sent, and what channels/util.go
    makes of it. */
module Redis {

  /** Done; an error that is not a timeout; or a timeout. An error of either kind may come
      before the command was carried out or after it (`late`). */
  datatype Reply = Done | Failed(late: bool) | TimedOut(late: bool)

  /** Was the command carried out? */
  predicate Took(r: Reply) {
    r.Done? || r.late
  }

  /** redisErrIsNil lets everything but a timeout pass for success. */
  predicate Answered(r: Reply) {
    !r.TimedOut?
  }

  /** The first k replies say that the command was carried out. */
  predicate AllTook(replies: nat -> Reply, k: nat) {
    forall i :: 0 <= i < k ==> Took(replies(i))
  }

  /** How many of the first k. */
  function Carried(replies: nat -> Reply, k: nat): (n: nat)
    ensures n <= k
    decreases k
  {
    if k == 0 then 0 else Carried(replies, k - 1) + (if Took(replies(k - 1)) then 1 else 0)
  }

  lemma {:induction false} CarriedAllIff(replies: nat -> Reply, k: nat)
    ensures Carried(replies, k) == k <==> AllTook(replies, k)
    decreases k
  {
    if k == 0 {
    } else {
      CarriedAllIff(replies, k - 1);
      assert AllTook(replies, k) <==> AllTook(replies, k - 1) && Took(replies(k - 1));
    }
  }
}
