/**
 The locked pool as the object its callers share: each method is what runs between two points where
 another caller may get in.
 */
module PoolObject {
  import opened Wrappers
  import opened PoolSpec
  import opened LockedPool

  class SlotPool {
    const wrap: Option<nat>
    var next: nat
    var slots: seq<Conn>
    var locks: seq<Option<nat>>
    var dead: set<Conn>
    var born: nat
    var callers: seq<Caller>
    ghost var log: seq<Replacement>

    ghost function Value(): State
      reads this
    {
      State(wrap, next, slots, locks, dead, born, callers, log)
    }

    constructor (wrap: Option<nat>, n: nat)
      requires n > 0
      ensures Value() == Start(wrap, n)
    {
      this.wrap := wrap;
      next, slots, locks := 0, seq(n, i => i), seq(n, _ => None);
      dead, born, callers, log := {}, n, [], [];
    }

    /** Take a ticket. */
    method NextSlot() returns (idx: nat)
      requires |slots| > 0
      modifies `next
      ensures idx == old(next) % |slots| && next == Bump(wrap, old(next))
    {
      idx := next % |slots|;
      next := next + 1;
      if wrap.Some? && wrap.value > 0 {
        next := next % wrap.value;
      }
    }

    method Enter()
      requires Sized(Value())
      modifies this
      ensures Value() == DoCall(old(Value()))
    {
      var idx := NextSlot();
      callers := callers + [Ticketed(idx)];
    }

    /** The unlocked look: hand out the slot's connection if it is open, else queue for the lock. */
    method Look(c: nat)
      requires Sized(Value()) && c < |callers| && (callers[c].Ticketed? || callers[c].Looked?)
      modifies `callers
      ensures Value() == DoAdvance(old(Value()), c)
    {
      match callers[c]
      case Ticketed(i) =>
        var client := slots[i];
        callers := callers[c := Looked(i, client)];
      case Looked(i, client) =>
        if client !in dead {
          callers := callers[c := Served(client)];
        } else {
          callers := callers[c := Waiting(i)];
        }
    }

    method TakeLock(c: nat)
      requires Sized(Value()) && c < |callers| && callers[c].Waiting?
      modifies `callers, `locks
      ensures Value() == DoAdvance(old(Value()), c)
    {
      var i := callers[c].slot;
      if locks[i].None? {
        locks := locks[i := Some(c)];
        callers := callers[c := Entered(i)];
      }
    }

    /** The look under the lock: someone else may have reconnected while we waited. */
    method LookAgain(c: nat)
      requires Sized(Value()) && c < |callers| && (callers[c].Entered? || callers[c].LookedAgain?)
      modifies `callers, `locks
      ensures Value() == DoAdvance(old(Value()), c)
    {
      match callers[c]
      case Entered(i) =>
        var client := slots[i];
        callers := callers[c := LookedAgain(i, client)];
      case LookedAgain(i, client) =>
        if client !in dead {
          callers := callers[c := Served(client)];
          locks := locks[i := None];
        } else {
          callers := callers[c := Dialing(i, client)];
        }
    }

    /** The dial returns: swap the new connection in, or give up the lock with the error. */
    method Dialed(c: nat, ok: bool)
      requires Sized(Value()) && c < |callers| && callers[c].Dialing?
      modifies this
      ensures Value() == DoConnect(old(Value()), c, ok)
    {
      var i := callers[c].slot;
      if ok {
        var newcomer := born;
        born := born + 1;
        log := log + [Replacement(i, slots[i], newcomer)];
        slots := slots[i := newcomer];
        callers := callers[c := Swapped(i, newcomer)];
      } else {
        callers := callers[c := Failed];
        locks := locks[i := None];
      }
    }

    method Release(c: nat)
      requires Sized(Value()) && c < |callers| && callers[c].Swapped?
      modifies `callers, `locks
      ensures Value() == DoAdvance(old(Value()), c)
    {
      var i, client := callers[c].slot, callers[c].conn;
      callers := callers[c := Served(client)];
      locks := locks[i := None];
    }

    /** The caller is dropped at an await. */
    method Drop(c: nat)
      requires Sized(Value()) && c < |callers| && (callers[c].Waiting? || callers[c].Dialing?)
      modifies `callers, `locks
      ensures Value() == DoCancel(old(Value()), c)
    {
      var i, locked := callers[c].slot, callers[c].Dialing?;
      callers := callers[c := Failed];
      if locked {
        locks := locks[i := None];
      }
    }

    method Advance(c: nat)
      requires Sized(Value()) && c < |callers|
      modifies this
      ensures Value() == DoAdvance(old(Value()), c)
    {
      if callers[c].Ticketed? || callers[c].Looked? {
        Look(c);
      } else if callers[c].Waiting? {
        TakeLock(c);
      } else if callers[c].Entered? || callers[c].LookedAgain? {
        LookAgain(c);
      } else if callers[c].Swapped? {
        Release(c);
      }
    }

    method Perform(e: Event)
      requires Sized(Value())
      modifies this
      ensures Value() == Step(old(Value()), e)
    {
      hide DoCall, DoAdvance, DoConnect, DoCancel;
      match e
      case Call => Enter();
      case Advance(c) => if c < |callers| { Advance(c); }
      case Connect(c, ok) => if c < |callers| && callers[c].Dialing? { Dialed(c, ok); }
      case Cancel(c) => if c < |callers| && (callers[c].Waiting? || callers[c].Dialing?) { Drop(c); }
      case Dies(conn) => if conn < born { dead := dead + {conn}; }
    }

    /** However its callers are interleaved, the object goes through the machine's states, of which
        `LockedPool.PoolIsSafe` speaks. */
    method Drive(es: seq<Event>)
      requires Sized(Value())
      modifies this
      ensures Value() == Run(old(Value()), es)
    {
      hide Step;
      ghost var goal := Run(Value(), es);
      var k := 0;
      while k < |es|
        invariant k <= |es| && Sized(Value()) && Run(Value(), es[k..]) == goal
      {
        assert es[k..][0] == es[k] && es[k..][1..] == es[k + 1..];
        Perform(es[k]);
        k := k + 1;
      }
    }
  }
}
