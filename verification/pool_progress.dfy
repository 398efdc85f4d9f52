/**
 What a caller of a pool gets: that a dead connection is replaced and its callers are served, and not
 only that nothing live is lost.
 */
module PoolProgress {
  import opened Wrappers
  import opened PoolSpec
  import opened LockedPool

  /** Everybody but `c` stands where they stood. */
  ghost predicate OthersStand(s: State, t: State, c: nat) {
    |t.callers| == |s.callers| && forall k :: 0 <= k < |s.callers| && k != c ==> t.callers[k] == s.callers[k]
  }

  /** A new caller is behind the others, with the next ticket. */
  lemma CallEnters(s: State)
    requires Sized(s)
    ensures var t := Step(s, Call);
            && t.callers == s.callers + [Ticketed(s.next % |s.slots|)]
            && t.slots == s.slots && t.locks == s.locks && t.dead == s.dead && t.born == s.born
  {}

  /** A connection that dies is seen to be dead from then on, and nothing else changes. */
  lemma DeathIsSeen(s: State, conn: Conn)
    requires Sized(s) && conn < s.born
    ensures Step(s, Dies(conn)) == s.(dead := s.dead + {conn})
  {}

  /** Nobody fails but by a dial that failed, or by being dropped; and only the caller that an event is for
      moves. */
  lemma FailsOnlyBy(s: State, e: Event, c: nat)
    requires Sized(s) && c < |s.callers|
    ensures c < |Step(s, e).callers|
    ensures Step(s, e).callers[c] == Failed && s.callers[c] != Failed ==> e == Connect(c, false) || e == Cancel(c)
    ensures Step(s, e).callers[c] != s.callers[c] ==> e in {Advance(c), Connect(c, true), Connect(c, false), Cancel(c)}
  {}

  /** A caller that finds its slot's connection open is served it, in two steps. */
  lemma LiveIsServed(s: State, c: nat)
    requires Sized(s) && c < |s.callers| && s.callers[c].Ticketed?
    requires s.slots[s.callers[c].slot] !in s.dead
    ensures var t := Step(Step(s, Advance(c)), Advance(c));
            && c < |t.callers| && t.callers[c] == Served(s.slots[s.callers[c].slot])
            && OthersStand(s, t, c) && t.slots == s.slots && t.locks == s.locks
  {}

  /** A caller that looked at a dead connection queues for the slot's lock. */
  lemma DeadQueues(s: State, c: nat)
    requires Sized(s) && c < |s.callers| && s.callers[c].Looked? && s.callers[c].conn in s.dead
    ensures var t := Step(s, Advance(c));
            && c < |t.callers| && t.callers[c] == Waiting(s.callers[c].slot)
            && OthersStand(s, t, c) && t == s.(callers := t.callers)
  {}

  lemma RunThree(s: State, a: Event, b: Event, c: Event)
    requires Sized(s)
    ensures Run(s, [a, b, c]) == Step(Step(Step(s, a), b), c)
  {
    hide Step;
    var es := [a, b, c];
    assert es[1..] == [b, c] && es[1..][1..] == [c] && es[1..][1..][1..] == [];
    assert Run(s, es) == Run(Step(s, a), es[1..]) == Run(Step(Step(s, a), b), es[1..][1..]);
  }

  /** Waiting at a free lock, it gets in, and then dials if the connection is dead by then, or is served the
      replacement somebody else put there. */
  lemma WaiterDials(s: State, c: nat)
    requires Sized(s) && c < |s.callers| && s.callers[c].Waiting? && s.locks[s.callers[c].slot].None?
    ensures var i := s.callers[c].slot;
            var t := Run(s, [Advance(c), Advance(c), Advance(c)]);
            && c < |t.callers| && OthersStand(s, t, c) && t.slots == s.slots
            && (s.slots[i] in s.dead ==> t.callers[c] == Dialing(i, s.slots[i]) && t.locks[i] == Some(c))
            && (s.slots[i] !in s.dead ==> t.callers[c] == Served(s.slots[i]) && t.locks[i] == None)
  {
    var i := s.callers[c].slot;
    RunThree(s, Advance(c), Advance(c), Advance(c));
    hide Run;
    var s1 := Step(s, Advance(c));
    assert s1 == With(s.(locks := s.locks[i := Some(c)]), c, Entered(i));
    var s2 := Step(s1, Advance(c));
    assert s2 == With(s1, c, LookedAgain(i, s.slots[i]));
  }

  /** A dial that succeeds puts the new connection in the slot, and one more step hands it to its caller and
      frees the lock. */
  lemma DialServes(s: State, c: nat)
    requires Sized(s) && c < |s.callers| && s.callers[c].Dialing?
    ensures var i := s.callers[c].slot;
            var t := Step(Step(s, Connect(c, true)), Advance(c));
            && c < |t.callers| && t.callers[c] == Served(s.born) && OthersStand(s, t, c)
            && t.slots == s.slots[i := s.born] && t.born == s.born + 1 && t.locks == s.locks[i := None]
            && t.log == s.log + [Replacement(i, s.slots[i], s.born)]
  {}

  /** One that fails, or a dropped dialer, fails its caller and frees the lock, and leaves the slot. */
  lemma FailureFrees(s: State, c: nat)
    requires Sized(s) && c < |s.callers| && s.callers[c].Dialing?
    ensures Step(s, Cancel(c)) == Step(s, Connect(c, false))
    ensures var t := Step(s, Connect(c, false));
            && c < |t.callers| && t.callers[c] == Failed && OthersStand(s, t, c)
            && t.slots == s.slots && t.born == s.born && t.locks == s.locks[s.callers[c].slot := None]
  {}

  /** The steps after which a holder has let go of its lock, if its dial succeeds. */
  function LetGo(s: State, c: nat): seq<Event>
    requires Sized(s) && c < |s.callers|
  {
    match s.callers[c]
    case Entered(i) =>
      if s.slots[i] in s.dead then [Advance(c), Advance(c), Connect(c, true), Advance(c)] else [Advance(c), Advance(c)]
    case LookedAgain(_, conn) =>
      if conn in s.dead then [Advance(c), Connect(c, true), Advance(c)] else [Advance(c)]
    case Dialing(_, _) => [Connect(c, true), Advance(c)]
    case Swapped(_, _) => [Advance(c)]
    case _ => []
  }

  /** No lock is stuck: in every reachable state a slot's lock is free or held by a caller whose own next
      steps are never blocked, and after at most four of them the caller is served and the lock is
      free. */
  lemma LockIsFreed(s: State, i: nat)
    requires LockedPool.Inv(s) && i < |s.locks| && s.locks[i].Some?
    ensures var c := s.locks[i].value;
            && c < |s.callers| && s.callers[c].slot == i && |LetGo(s, c)| <= 4
            && var t := Run(s, LetGo(s, c));
               c < |t.callers| && t.locks[i].None? && t.callers[c].Served? && OthersStand(s, t, c)
  {
    assert Sized(s);
    hide Locking, AllCurrent;
    var c := s.locks[i].value;
    HolderOf(s, i);
    HolderIsServed(s, c);
  }

  lemma HolderOf(s: State, i: nat)
    requires LockedPool.Inv(s) && i < |s.locks| && s.locks[i].Some?
    ensures HeldBy(s, i, s.locks[i].value)
  {}

  lemma HolderIsServed(s: State, c: nat)
    requires Sized(s) && c < |s.callers| && HoldsLock(s.callers[c])
    ensures var t := Run(s, LetGo(s, c));
            c < |t.callers| && t.locks[s.callers[c].slot].None? && t.callers[c].Served? && OthersStand(s, t, c)
    decreases match s.callers[c] case Entered(_) => 3 case LookedAgain(_, _) => 2 case Dialing(_, _) => 1 case _ => 0
  {
    var es := LetGo(s, c);
    var t := Step(s, es[0]);
    assert Run(s, es) == Run(t, es[1..]);
    HolderSteps(s, c);
    if es[1..] == [] {
      assert Run(t, es[1..]) == t;
    } else {
      hide Step, Run;
      HolderIsServed(t, c);
    }
  }

  lemma HolderSteps(s: State, c: nat)
    requires Sized(s) && c < |s.callers| && HoldsLock(s.callers[c])
    ensures var es := LetGo(s, c);
            es != [] &&
            var t := Step(s, es[0]);
            && c < |t.callers| && OthersStand(s, t, c)
            && (if es[1..] == [] then t.callers[c].Served? && t.locks[s.callers[c].slot].None?
                else
                  && HoldsLock(t.callers[c]) && t.callers[c].slot == s.callers[c].slot && LetGo(t, c) == es[1..]
                  && (s.callers[c].Entered? ==> t.callers[c].LookedAgain?)
                  && (s.callers[c].LookedAgain? ==> t.callers[c].Dialing?)
                  && (s.callers[c].Dialing? ==> t.callers[c].Swapped?))
  {}

  /** A caller on a dead connection with the lock free, from its first look to the new connection: seven
      steps, of which nobody else's is needed, if the dial succeeds. */
  lemma DeadIsReplaced(s: State, c: nat)
    requires Sized(s) && c < |s.callers| && s.callers[c].Looked? && s.callers[c].conn in s.dead
    requires s.locks[s.callers[c].slot].None? && s.slots[s.callers[c].slot] in s.dead
    ensures var i := s.callers[c].slot;
            var t := Run(Step(s, Advance(c)), [Advance(c), Advance(c), Advance(c)]);
            c < |t.callers| && t.callers[c] == Dialing(i, s.slots[i])
            && var u := Step(Step(t, Connect(c, true)), Advance(c));
               c < |u.callers| && u.callers[c] == Served(t.born) && u.slots[i] == t.born && u.locks[i].None?
  {
    hide Step, Run;
    DeadQueues(s, c);
    var s1 := Step(s, Advance(c));
    WaiterDials(s1, c);
    DialServes(Run(s1, [Advance(c), Advance(c), Advance(c)]), c);
  }
}
