/** The breaker and the gateway service as objects. */
module GatewayService {
  import opened Optional
  import opened CircuitBreaker

  class Circuit {
    const maxFailures: int
    const resetTimeout: int
    var currentFailures: int
    var lastFailureTime: int
    var state: State

    constructor (maxFailures: int, resetTimeout: int)
      ensures Value() == NewBreaker(maxFailures, resetTimeout)
    {
      this.maxFailures, this.resetTimeout := maxFailures, resetTimeout;
      currentFailures, lastFailureTime, state := 0, 0, Closed;
    }

    function Value(): Breaker
      reads this
    {
      Breaker(maxFailures, resetTimeout, currentFailures, lastFailureTime, state)
    }

    method CanExecute(now: int) returns (ok: bool)
      modifies this`state
      ensures ok == Admits(old(Value()), now) && Value() == Asked(old(Value()), now)
    {
      match state {
        case Closed => return true;
        case Open =>
          if now - lastFailureTime > resetTimeout {
            state := HalfOpen;
            return true;
          }
          return false;
        case HalfOpen => return true;
      }
    }

    method OnSuccess()
      modifies this
      ensures Value() == Succeeded(old(Value()))
    {
      currentFailures := 0;
      state := Closed;
    }

    method OnFailure(now: int)
      modifies this
      ensures Value() == FailedAt(old(Value()), now)
    {
      currentFailures := currentFailures + 1;
      lastFailureTime := now;
      if currentFailures >= maxFailures {
        state := Open;
      }
    }
  }

  class Service {
    const circuitBreaker: Circuit

    constructor ()
      ensures fresh(circuitBreaker) && circuitBreaker.Value() == NewBreaker(5, 60)
    {
      circuitBreaker := new Circuit(5, 60);
    }

    /** A payment's gateway call: one request through the breaker. */
    method ProcessPayment(r: Request) returns (outcome: Outcome)
      modifies circuitBreaker
      ensures outcome == OutcomeOf(old(circuitBreaker.Value()), r)
      ensures circuitBreaker.Value() == After(old(circuitBreaker.Value()), r)
    {
      var admitted := circuitBreaker.CanExecute(r.start);
      if !admitted {
        return BreakerOpen;
      }
      if r.answer.None? {
        circuitBreaker.OnFailure(r.end);
        return CallFailed;
      }
      circuitBreaker.OnSuccess();
      if r.answer.value.status != "success" && r.answer.value.status != "completed" {
        return Rejected(r.answer.value.message);
      }
      return Paid(r.answer.value.transactionID);
    }

    method ResetCircuitBreaker()
      modifies circuitBreaker
      ensures circuitBreaker.Value() == Called(old(circuitBreaker.Value()), Reset)
    {
      circuitBreaker.state := Closed;
      circuitBreaker.currentFailures := 0;
    }
  }
}
