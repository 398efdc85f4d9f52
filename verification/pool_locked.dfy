/**
 The Rust and Python pools: round-robin tickets, and a lock per slot under which a caller looks
 again before it dials.

 Every await or lock operation ends a step, so callers interleave anywhere the source lets them.
 A connection dies at any time and stays dead.
 */
module LockedPool {
  import opened Wrappers
  import opened PoolSpec
  import PoolTickets

  /** Where a caller of `get_healthy` stands, and what it has read so far. */
  datatype Caller =
    | Ticketed(slot: nat)
    | Looked(slot: nat, conn: Conn)
    | Waiting(slot: nat)
    | Entered(slot: nat)
    | LookedAgain(slot: nat, conn: Conn)
    | Dialing(slot: nat, conn: Conn)
    | Swapped(slot: nat, conn: Conn)
    | Served(conn: Conn)
    | Failed

  /** `wrap` is where the ticket counter starts over: 2^64 in Rust, nowhere in Python. */
  datatype State = State(
    wrap: Option<nat>,
    next: nat,
    slots: seq<Conn>,
    locks: seq<Option<nat>>,
    dead: set<Conn>,
    born: nat,
    callers: seq<Caller>,
    ghost log: seq<Replacement>)

  datatype Event =
    | Call
    | Advance(caller: nat)
    | Connect(caller: nat, ok: bool)
    | Cancel(caller: nat)
    | Dies(conn: Conn)

  function Bump(wrap: Option<nat>, n: nat): nat {
    if wrap.Some? && wrap.value > 0 then (n + 1) % wrap.value else n + 1
  }

  predicate InSlot(c: Caller, n: nat) { c.Served? || c.Failed? || c.slot < n }

  predicate HoldsLock(c: Caller) { c.Entered? || c.LookedAgain? || c.Dialing? || c.Swapped? }

  predicate Sized(s: State) {
    |s.slots| > 0 && |s.locks| == |s.slots| && forall c :: 0 <= c < |s.callers| ==> InSlot(s.callers[c], |s.slots|)
  }

  function Start(wrap: Option<nat>, n: nat): State
    requires n > 0
    ensures Sized(Start(wrap, n))
  {
    State(wrap, 0, seq(n, i => i), seq(n, _ => None), {}, n, [], [])
  }

  function With(s: State, c: nat, caller: Caller): State
    requires c < |s.callers|
  {
    s.(callers := s.callers[c := caller])
  }

  function Unlock(s: State, i: nat): State
    requires i < |s.locks|
  {
    s.(locks := s.locks[i := None])
  }

  function DoCall(s: State): State
    requires Sized(s)
  {
    s.(next := Bump(s.wrap, s.next), callers := s.callers + [Ticketed(s.next % |s.slots|)])
  }

  /** The caller's next step, unless it is waiting for a lock that is taken or for its dial. */
  function DoAdvance(s: State, c: nat): State
    requires Sized(s) && c < |s.callers|
  {
    var me := s.callers[c];
    match me
    case Ticketed(i) => With(s, c, Looked(i, s.slots[i]))
    case Looked(i, conn) => With(s, c, if conn in s.dead then Waiting(i) else Served(conn))
    case Waiting(i) => if s.locks[i].None? then With(s.(locks := s.locks[i := Some(c)]), c, Entered(i)) else s
    case Entered(i) => With(s, c, LookedAgain(i, s.slots[i]))
    case LookedAgain(i, conn) =>
      if conn in s.dead then With(s, c, Dialing(i, conn)) else Unlock(With(s, c, Served(conn)), i)
    case Dialing(_, _) => s
    case Swapped(i, conn) => Unlock(With(s, c, Served(conn)), i)
    case Served(_) => s
    case Failed => s
  }

  function DoConnect(s: State, c: nat, ok: bool): State
    requires Sized(s) && c < |s.callers| && s.callers[c].Dialing?
  {
    var i := s.callers[c].slot;
    if ok then
      With(s.(slots := s.slots[i := s.born], born := s.born + 1,
              log := s.log + [Replacement(i, s.slots[i], s.born)]),
           c, Swapped(i, s.born))
    else Unlock(With(s, c, Failed), i)
  }

  /** A Rust caller dropped at an await gives the lock back. */
  function DoCancel(s: State, c: nat): State
    requires Sized(s) && c < |s.callers| && (s.callers[c].Waiting? || s.callers[c].Dialing?)
  {
    if s.callers[c].Dialing? then Unlock(With(s, c, Failed), s.callers[c].slot) else With(s, c, Failed)
  }

  function Step(s: State, e: Event): (t: State)
    requires Sized(s)
    ensures Sized(t) && |t.slots| == |s.slots|
  {
    match e
    case Call => DoCall(s)
    case Advance(c) => if c < |s.callers| then DoAdvance(s, c) else s
    case Connect(c, ok) => if c < |s.callers| && s.callers[c].Dialing? then DoConnect(s, c, ok) else s
    case Cancel(c) =>
      if c < |s.callers| && (s.callers[c].Waiting? || s.callers[c].Dialing?) then DoCancel(s, c) else s
    case Dies(conn) => if conn < s.born then s.(dead := s.dead + {conn}) else s
  }

  // What every reachable state keeps.

  ghost predicate Locking(s: State) {
    && Sized(s)
    && (forall c :: 0 <= c < |s.callers| && HoldsLock(s.callers[c]) ==> s.locks[s.callers[c].slot] == Some(c))
    && (forall i :: 0 <= i < |s.locks| && s.locks[i].Some? ==> HeldBy(s, i, s.locks[i].value))
  }

  ghost predicate HeldBy(s: State, i: nat, c: nat) {
    c < |s.callers| && HoldsLock(s.callers[c]) && s.callers[c].slot == i
  }

  /** What a caller inside the lock has read still stands. */
  ghost predicate Current(s: State, c: Caller)
    requires InSlot(c, |s.slots|)
  {
    && (c.LookedAgain? || c.Dialing? || c.Swapped? ==> s.slots[c.slot] == c.conn)
    && (c.Dialing? ==> c.conn in s.dead)
  }

  ghost predicate AllCurrent(s: State)
    requires Sized(s)
  {
    forall c :: 0 <= c < |s.callers| ==> Current(s, s.callers[c])
  }

  ghost predicate Inv(s: State) { Locking(s) && AllCurrent(s) }

  ghost predicate DialFor(s: State, i: nat)
    requires i < |s.locks|
  {
    s.locks[i].Some? && s.locks[i].value < |s.callers| && s.callers[s.locks[i].value].Dialing?
  }

  /** What an onlooker sees of the pool. */
  ghost function View(s: State): (p: Pool)
    requires Sized(s)
    ensures |p.dialing| == |s.slots|
    ensures forall i :: 0 <= i < |s.slots| ==> p.dialing[i] == DialFor(s, i)
  {
    Pool(s.slots, s.dead, s.born, seq(|s.slots|, i requires 0 <= i < |s.slots| => DialFor(s, i)), s.log)
  }

  ghost function MoveOf(s: State, e: Event): Move
    requires Sized(s)
  {
    match e
    case Call => Stay
    case Advance(c) =>
      if c < |s.callers| && s.callers[c].LookedAgain? && s.callers[c].conn in s.dead then Dial(s.callers[c].slot)
      else Stay
    case Connect(c, ok) =>
      if c < |s.callers| && s.callers[c].Dialing? then
        (if ok then Connected(s.callers[c].slot) else Refused(s.callers[c].slot))
      else Stay
    case Cancel(c) => if c < |s.callers| && s.callers[c].Dialing? then Refused(s.callers[c].slot) else Stay
    case Dies(conn) => if conn < s.born then Die(conn) else Stay
  }

  lemma CallKeeps(s: State)
    requires Inv(s)
    ensures Inv(DoCall(s)) && View(DoCall(s)) == View(s)
  {
    var t := DoCall(s);
    forall i | 0 <= i < |s.slots| ensures DialFor(t, i) == DialFor(s, i) {}
  }

  lemma DieKeeps(s: State, conn: Conn)
    requires Inv(s) && conn < s.born
    ensures Allowed(View(s), Die(conn))
    ensures Inv(Step(s, Dies(conn))) && View(Step(s, Dies(conn))) == Apply(View(s), Die(conn))
  {
    var t := Step(s, Dies(conn));
    forall i | 0 <= i < |s.slots| ensures DialFor(t, i) == DialFor(s, i) {}
  }

  lemma AdvanceLocks(s: State, c: nat)
    requires Inv(s) && c < |s.callers|
    ensures Locking(DoAdvance(s, c))
  {
    hide AllCurrent;
  }

  lemma AdvanceCurrent(s: State, c: nat)
    requires Inv(s) && c < |s.callers|
    ensures Sized(DoAdvance(s, c)) && AllCurrent(DoAdvance(s, c))
  {
    assert Current(s, s.callers[c]);
  }

  /** Only the last look inside the lock starts a dial. */
  lemma AdvanceView(s: State, c: nat)
    requires Inv(s) && c < |s.callers|
    ensures Allowed(View(s), MoveOf(s, Advance(c)))
    ensures View(DoAdvance(s, c)) == Apply(View(s), MoveOf(s, Advance(c)))
  {
    var t, me := DoAdvance(s, c), s.callers[c];
    forall i | 0 <= i < |s.slots|
      ensures DialFor(t, i) == (DialFor(s, i) || (me.LookedAgain? && me.conn in s.dead && i == me.slot))
    {
      assert s.locks[i].Some? ==> HeldBy(s, i, s.locks[i].value);
    }
    assert me.LookedAgain? ==> Current(s, me) && !DialFor(s, me.slot);
  }

  lemma ConnectKeeps(s: State, c: nat, ok: bool)
    requires Inv(s) && c < |s.callers| && s.callers[c].Dialing?
    ensures Inv(DoConnect(s, c, ok))
  {}

  lemma ConnectView(s: State, c: nat, ok: bool)
    requires Inv(s) && c < |s.callers| && s.callers[c].Dialing?
    ensures Allowed(View(s), MoveOf(s, Connect(c, ok)))
    ensures View(DoConnect(s, c, ok)) == Apply(View(s), MoveOf(s, Connect(c, ok)))
  {
    var t := DoConnect(s, c, ok);
    DialGone(s, t, c);
  }

  /** When a dialing caller moves on, its slot's dial is over and no other slot's is. */
  lemma DialGone(s: State, t: State, c: nat)
    requires Inv(s) && Sized(t) && c < |s.callers| && s.callers[c].Dialing?
    requires |t.slots| == |s.slots| && |t.callers| == |s.callers| && !t.callers[c].Dialing?
    requires forall k :: 0 <= k < |s.callers| && k != c ==> t.callers[k] == s.callers[k]
    requires forall i :: 0 <= i < |s.locks| && i != s.callers[c].slot ==> t.locks[i] == s.locks[i]
    requires t.locks[s.callers[c].slot] in {None, Some(c)}
    ensures DialFor(s, s.callers[c].slot)
    ensures forall i :: 0 <= i < |s.slots| ==> DialFor(t, i) == (DialFor(s, i) && i != s.callers[c].slot)
  {
    forall i | 0 <= i < |s.slots| ensures DialFor(t, i) == (DialFor(s, i) && i != s.callers[c].slot) {
      assert s.locks[i].Some? ==> HeldBy(s, i, s.locks[i].value);
    }
  }

  lemma CancelKeeps(s: State, c: nat)
    requires Inv(s) && c < |s.callers| && (s.callers[c].Waiting? || s.callers[c].Dialing?)
    ensures Inv(DoCancel(s, c))
  {}

  lemma CancelView(s: State, c: nat)
    requires Inv(s) && c < |s.callers| && (s.callers[c].Waiting? || s.callers[c].Dialing?)
    ensures Allowed(View(s), MoveOf(s, Cancel(c)))
    ensures View(DoCancel(s, c)) == Apply(View(s), MoveOf(s, Cancel(c)))
  {
    var t := DoCancel(s, c);
    if s.callers[c].Dialing? {
      DialGone(s, t, c);
    } else {
      forall i | 0 <= i < |s.slots| ensures DialFor(t, i) == DialFor(s, i) {
        assert s.locks[i].Some? ==> HeldBy(s, i, s.locks[i].value);
      }
    }
  }

  /** The locked pool only does what a pool may: every step is one move of the specification. */
  lemma StepRefines(s: State, e: Event)
    requires Inv(s)
    ensures Inv(Step(s, e))
    ensures Allowed(View(s), MoveOf(s, e)) && View(Step(s, e)) == Apply(View(s), MoveOf(s, e))
  {
    hide Locking, AllCurrent, DoCall, DoAdvance, DoConnect, DoCancel, View;
    match e
    case Call => CallKeeps(s);
    case Advance(c) => if c < |s.callers| { AdvanceLocks(s, c); AdvanceCurrent(s, c); AdvanceView(s, c); }
    case Connect(c, ok) => if c < |s.callers| && s.callers[c].Dialing? { ConnectKeeps(s, c, ok); ConnectView(s, c, ok); }
    case Cancel(c) =>
      if c < |s.callers| && (s.callers[c].Waiting? || s.callers[c].Dialing?) { CancelKeeps(s, c); CancelView(s, c); }
    case Dies(conn) => if conn < s.born { DieKeeps(s, conn); }
  }

  // Whole runs.

  function Run(s: State, es: seq<Event>): (t: State)
    requires Sized(s)
    ensures Sized(t) && |t.slots| == |s.slots|
    decreases |es|
  {
    if es == [] then s else Run(Step(s, es[0]), es[1..])
  }

  lemma StartInv(wrap: Option<nat>, n: nat)
    requires n > 0
    ensures Inv(Start(wrap, n)) && View(Start(wrap, n)) == Opened(n)
  {}

  ghost function Moves(s: State, es: seq<Event>): seq<Move>
    requires Sized(s)
    decreases |es|
  {
    if es == [] then [] else [MoveOf(s, es[0])] + Moves(Step(s, es[0]), es[1..])
  }

  lemma {:induction false} RunRefines(s: State, es: seq<Event>)
    requires Inv(s)
    ensures Inv(Run(s, es))
    ensures RunOf(View(s), Moves(s, es)) && View(Run(s, es)) == After(View(s), Moves(s, es))
    decreases |es|
  {
    assert Sized(s);
    hide Step, View, MoveOf, Allowed, Apply, Locking, AllCurrent;
    if es != [] {
      StepRefines(s, es[0]);
      RunRefines(Step(s, es[0]), es[1..]);
      assert Moves(s, es)[0] == MoveOf(s, es[0]);
      assert Moves(s, es)[1..] == Moves(Step(s, es[0]), es[1..]);
    }
  }

  /** In every run, whatever the callers and however their steps interleave: at most one of them is
      dialing for a slot, and only for a dead connection; the connections opened are exactly those
      in the slots and those retired, each retired once and dead; so a connection that is still
      alive is in a slot, and a first connection still alive in its own. */
  lemma PoolIsSafe(wrap: Option<nat>, n: nat, es: seq<Event>)
    requires n > 0
    ensures var s := Run(Start(wrap, n), es);
            && PoolSpec.Inv(View(s))
            && (forall a, b :: 0 <= a < b < |s.callers| && s.callers[a].Dialing? && s.callers[b].Dialing? ==>
                  s.callers[a].slot != s.callers[b].slot)
            && (forall a :: 0 <= a < |s.callers| && s.callers[a].Dialing? ==>
                  s.slots[s.callers[a].slot] == s.callers[a].conn && s.callers[a].conn in s.dead)
            && (forall i :: 0 <= i < n && i !in s.dead ==> s.slots[i] == i)
            && (forall conn :: 0 <= conn < s.born && conn !in s.dead ==> conn in s.slots)
  {
    var s0 := Start(wrap, n);
    StartInv(wrap, n);
    RunRefines(s0, es);
    OpenedInv(n);
    RunKeeps(View(s0), Moves(s0, es));
    var s := Run(s0, es);
    assert Inv(s);
    forall a | 0 <= a < |s.callers| && s.callers[a].Dialing?
      ensures s.slots[s.callers[a].slot] == s.callers[a].conn && s.callers[a].conn in s.dead
    {
      assert Current(s, s.callers[a]);
    }
    LiveIsKept(View(s));
  }

  /** What `get_healthy` hands out was alive when last looked at, or is the caller's own new
      connection, in its slot. */
  lemma ServedAlive(s: State, e: Event, c: nat)
    requires Inv(s) && c < |s.callers|
    requires !s.callers[c].Served? && Step(s, e).callers[c].Served?
    ensures var me := s.callers[c];
            && (me.Looked? || me.LookedAgain? || me.Swapped?)
            && Step(s, e).callers[c].conn == me.conn
            && (me.Swapped? ==> s.slots[me.slot] == me.conn)
            && (!me.Swapped? ==> me.conn !in s.dead)
  {
    assert Current(s, s.callers[c]);
  }

  // Tickets.

  function Counter(wrap: Option<nat>, calls: nat): nat {
    if wrap.Some? && wrap.value > 0 then calls % wrap.value else calls
  }

  /** The counter has counted the callers, and each of them is at the slot of its own ticket. */
  ghost predicate InTurn(s: State) {
    && Sized(s)
    && s.next == Counter(s.wrap, |s.callers|)
    && forall c :: 0 <= c < |s.callers| ==> AtSlot(s.callers[c], Counter(s.wrap, c) % |s.slots|)
  }

  predicate AtSlot(c: Caller, slot: nat) { c.Served? || c.Failed? || c.slot == slot }

  lemma CounterBumps(wrap: Option<nat>, calls: nat)
    ensures Counter(wrap, calls + 1) == Bump(wrap, Counter(wrap, calls))
  {
    if wrap.Some? && wrap.value > 0 {
      var w := wrap.value;
      PoolTickets.DivMod(calls, w);
      assert calls + 1 == (calls / w) * w + (calls % w + 1);
      PoolTickets.TurnsVanish(calls % w + 1, calls / w, w);
    }
  }

  lemma StepKeepsTurn(s: State, e: Event)
    requires InTurn(s)
    ensures InTurn(Step(s, e))
  {
    CounterBumps(s.wrap, |s.callers|);
    hide Counter, Bump;
  }

  /** In every run the callers are sent to the slots in turn. */
  lemma {:induction false} CallersInTurn(s: State, es: seq<Event>)
    requires InTurn(s)
    ensures InTurn(Run(s, es))
    decreases |es|
  {
    hide Counter, Bump, Step;
    if es != [] {
      StepKeepsTurn(s, es[0]);
      CallersInTurn(Step(s, es[0]), es[1..]);
    }
  }
}
