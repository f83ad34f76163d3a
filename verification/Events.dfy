/**
  Subscriptions with one-slot channels (events/subscription.go).

  This module is about the locked operations one at a time: which channels are
  open, and that none is closed twice or sent to after it was closed.  The
  requires clauses of Send and Close are what would otherwise panic.  How the
  operations interleave is the subject of NotifyProtocol.
*/
module Events {

  /** A buffered channel of capacity one; `closings` counts how often it was closed. */
  class Channel {
    var open: bool
    var token: bool
    ghost var closings: nat

    constructor ()
      ensures open && !token && closings == 0
    {
      open, token, closings := true, false, 0;
    }

    /** The non-blocking send of a select with a default branch. */
    method Send()
      requires open
      modifies this`token
      ensures token
    {
      token := true;
    }

    method Close()
      requires open
      modifies this`open, this`closings
      ensures !open && closings == old(closings) + 1
    {
      open, closings := false, closings + 1;
    }
  }

  class SubscriptionManager {
    var subscribers: set<Channel>
    /** Every channel that Subscribe has handed out. */
    ghost var issued: set<Channel>

    /** A channel is registered exactly as long as it is open, and is closed at most once. */
    ghost predicate Valid()
      reads this, issued
    {
      && subscribers <= issued
      && forall c :: c in issued ==>
           && (c in subscribers <==> c.open)
           && c.closings == if c.open then 0 else 1
    }

    constructor ()
      ensures Valid() && subscribers == {} && issued == {}
    {
      subscribers, issued := {}, {};
    }

    method Subscribe() returns (ch: Channel)
      requires Valid()
      modifies this
      ensures Valid() && fresh(ch) && !ch.token
      ensures subscribers == old(subscribers) + {ch} && issued == old(issued) + {ch}
    {
      ch := new Channel();
      subscribers := subscribers + {ch};
      issued := issued + {ch};
    }

    /** Removes and closes a registered channel; any other channel is left alone. */
    method Unsubscribe(ch: Channel)
      requires Valid()
      modifies this`subscribers, ch`open, ch`closings
      ensures Valid() && subscribers == old(subscribers) - {ch}
      ensures ch !in old(subscribers) ==> ch.open == old(ch.open) && ch.closings == old(ch.closings)
    {
      if ch in subscribers {
        subscribers := subscribers - {ch};
        ch.Close();
      }
    }

    /**
      Sends to the registered channels in any order.  `done(i)` says whether the
      context is found finished at channel number i, and `leave(i)` whether the
      select then takes that branch although it could also send.
    */
    method Emit(done: nat -> bool, leave: nat -> bool) returns (stopped: bool)
      requires Valid()
      modifies subscribers`token
      ensures Valid()
      ensures !stopped ==> forall c :: c in subscribers ==> c.token
      ensures forall c :: c in subscribers && old(c.token) ==> c.token
      ensures (forall i :: !done(i)) ==> !stopped
    {
      var rest := subscribers;
      var i := 0;
      while rest != {}
        invariant rest <= subscribers
        invariant forall c :: c in subscribers && c !in rest ==> c.token
        invariant forall c :: c in subscribers && old(c.token) ==> c.token
        decreases |rest|
      {
        var sub :| sub in rest;
        if done(i) && (sub.token || leave(i)) {
          return true;
        }
        if !sub.token {
          sub.Send();
        }
        rest := rest - {sub};
        i := i + 1;
      }
      return false;
    }
  }

  class Subscription {
    const ch: Channel
    const mgr: SubscriptionManager
    /** There is a context to cancel: Watch was called. */
    var watched: bool
    /** The context of the watching goroutine was cancelled through this subscription. */
    var cancelled: bool
    var once: bool

    ghost predicate Valid()
      reads this, mgr, mgr.issued
    {
      mgr.Valid() && ch in mgr.issued && (once ==> !ch.open)
    }

    constructor (mgr: SubscriptionManager, ch: Channel)
      requires mgr.Valid() && ch in mgr.subscribers
      ensures Valid() && !once && !watched && !cancelled && this.mgr == mgr && this.ch == ch
    {
      this.mgr, this.ch := mgr, ch;
      watched, cancelled, once := false, false, false;
    }

    /** Watch up to its first callback: a new context, even for a channel that is already closed. */
    method Watch()
      requires Valid()
      modifies this`watched, this`cancelled
      ensures Valid() && watched && !cancelled
    {
      watched, cancelled := true, false;
    }

    /** Safe to repeat: only the first call does anything. */
    method Cancel()
      requires Valid()
      modifies this, mgr`subscribers, ch`open, ch`closings
      ensures Valid() && once && !ch.open && ch.closings == 1
      ensures mgr.subscribers == old(mgr.subscribers) - {ch}
      ensures watched == old(watched)
      ensures cancelled == (old(cancelled) || (!old(once) && watched))
    {
      if !once {
        once := true;
        if watched {
          cancelled := true;
        }
        mgr.Unsubscribe(ch);
      }
    }
  }
}
