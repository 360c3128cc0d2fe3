/** waitHealthy: what makes a container `proven`. */
module Health {
  import opened Options

  /** One turn of the loop: what docker inspect printed, or None if it failed; whether the
      deadline has passed; whether the context ended during the pause. */
  datatype Poll = Poll(value: Option<string>, late: bool, cancelled: bool)

  datatype Verdict = Healthy | NotHealthy | StillWaiting

  /** "true" is the running state of a container without a health check. */
  predicate Accepts(p: Poll) {
    p.value == Some("healthy") || p.value == Some("true")
  }

  predicate GoesOn(p: Poll) {
    p.value.Some? && !Accepts(p) && p.value != Some("unhealthy") && !p.late && !p.cancelled
  }

  /** Accepted exactly if some poll finds the container healthy (or running without a
      check) and every earlier one answered, was undecided and in time; a deadline that
      has passed does not reject a container found healthy. Later polls never matter. */
  method WaitHealthy(polls: seq<Poll>) returns (verdict: Verdict)
    ensures verdict == Healthy <==>
              exists n :: 0 <= n < |polls|
                && (polls[n].value == Some("healthy") || polls[n].value == Some("true"))
                && forall i :: 0 <= i < n ==>
                     && polls[i].value.Some? && polls[i].value.value !in ["healthy", "true", "unhealthy"]
                     && !polls[i].late && !polls[i].cancelled
    ensures verdict == StillWaiting <==>
              forall i :: 0 <= i < |polls| ==>
                && polls[i].value.Some? && polls[i].value.value !in ["healthy", "true", "unhealthy"]
                && !polls[i].late && !polls[i].cancelled
  {
    for n := 0 to |polls|
      invariant forall i :: 0 <= i < n ==> GoesOn(polls[i])
    {
      var poll := polls[n];
      if poll.value == None {
        return NotHealthy;
      }
      if poll.value.value == "healthy" || poll.value.value == "true" {
        return Healthy;
      }
      if poll.value.value == "unhealthy" || poll.late || poll.cancelled {
        return NotHealthy;
      }
    }
    return StillWaiting;
  }
}
