/**
 The timed guard a replica keeps for each deployment it monitors. The class is the
 object the renewal goroutine updates; Guard is its value, and the functions on Guard
 are the pieces of one tick, which LeaseProtocol interleaves with everything else.
 */
module LeaseGuard {
  import opened Common
  import opened TaskTable

  datatype Guard = Guard(lost: bool, lastRenewed: Time)

  datatype Reply = Unreachable | Answered(held: bool)

  /** Within one renewal interval of lapsing. */
  predicate Aged(guard: Guard, now: Time) {
    now - guard.lastRenewed + RENEW_INTERVAL >= LEASE_TTL
  }

  predicate Lost(guard: Guard, now: Time) {
    guard.lost || Aged(guard, now)
  }

  /** The first half of a tick: an aged claim is given up before any statement is issued. */
  function AfterCheck(guard: Guard, now: Time): Guard {
    if Aged(guard, now) then guard.(lost := true) else guard
  }

  /** The second half: the deadline counts from when the renewal was issued, not from its answer. */
  function AfterReply(guard: Guard, issued: Time, reply: Reply): Guard {
    match reply
    case Unreachable => guard
    case Answered(held) => if held then guard.(lastRenewed := issued) else guard.(lost := true)
  }

  class LeaseGuard {
    var lost: bool
    var lastRenewed: Time

    ghost function View(): Guard
      reads this
    {
      Guard(lost, lastRenewed)
    }

    constructor (now: Time)
      ensures View() == Guard(false, now)
      ensures !Lost(View(), now)
    {
      lost, lastRenewed := false, now;
    }

    /**
     One tick of the renewal goroutine: checked at one instant, issued at a later one,
     answered by the store. It stops exactly when the claim is known to be lost.
     */
    method Tick(checked: Time, issued: Time, reply: Reply) returns (stop: bool)
      requires checked <= issued
      modifies this
      ensures stop <==> checked - old(lastRenewed) >= LEASE_TTL - RENEW_INTERVAL || reply == Answered(false)
      ensures lost <==> old(lost) || stop
      ensures lastRenewed == if !stop && reply == Answered(true) then issued else old(lastRenewed)
      ensures View() == if Aged(old(View()), checked) then AfterCheck(old(View()), checked)
                        else AfterReply(old(View()), issued, reply)
    {
      var since := checked - lastRenewed;
      if since + RENEW_INTERVAL >= LEASE_TTL {
        lost := true;
        return true;
      }
      if reply.Unreachable? {
        return false;
      }
      if !reply.held {
        lost := true;
        return true;
      }
      lastRenewed := issued;
      return false;
    }

    method IsLost(now: Time) returns (answer: bool)
      ensures answer == Lost(View(), now)
      ensures answer <==> lost || now - lastRenewed >= LEASE_TTL - RENEW_INTERVAL
    {
      answer := lost || now - lastRenewed + RENEW_INTERVAL >= LEASE_TTL;
    }
  }

  /**
   Lost is not monotone on its own: a renewal issued just before the guard aged can be
   answered after it, and the guard is held again.
   */
  lemma LostCanBeRegained()
    ensures exists guard, issued, aged ::
      && issued <= aged
      && !Lost(guard, issued)
      && Lost(AfterCheck(guard, issued), aged)
      && !Lost(AfterReply(guard, issued, Answered(true)), aged)
  {
    var guard := Guard(false, 0);
    var aged := LEASE_TTL - RENEW_INTERVAL;
    assert aged - 1 <= aged && !Lost(guard, aged - 1) && Lost(AfterCheck(guard, aged - 1), aged)
        && !Lost(AfterReply(guard, aged - 1, Answered(true)), aged);
  }
}
