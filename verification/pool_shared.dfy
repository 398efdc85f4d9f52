/**
 The TypeScript pool: callers of a dead slot share the promise of one reconnect.

 A call of `getHealthy` runs to its first await in one go; a reconnect settles in another.
 */
module SharedPool {
  import opened Wrappers
  import opened PoolSpec

  datatype Attempt = InFlight(slot: nat) | Resolved(slot: nat, conn: Conn) | Rejected(slot: nat)

  /** What a caller was given: a connection that was open, or a share in an attempt. */
  datatype Caller = Given(conn: Conn) | Joined(attempt: nat)

  datatype State = State(
    next: nat,
    clients: seq<Conn>,
    reconnecting: seq<Option<nat>>,
    attempts: seq<Attempt>,
    dead: set<Conn>,
    born: nat,
    callers: seq<Caller>,
    ghost log: seq<Replacement>)

  datatype Event = Call | Settle(attempt: nat, ok: bool) | Dies(conn: Conn)

  predicate Sized(s: State) {
    && |s.clients| > 0 && |s.reconnecting| == |s.clients|
    && forall a :: 0 <= a < |s.attempts| ==> s.attempts[a].slot < |s.clients|
  }

  function Start(n: nat): (s: State)
    requires n > 0
    ensures Sized(s)
  {
    State(0, seq(n, i => i), seq(n, _ => None), [], {}, n, [], [])
  }

  function DoCall(s: State): State
    requires Sized(s)
  {
    var i := s.next % |s.clients|;
    var t := s.(next := s.next + 1);
    if s.clients[i] !in s.dead then t.(callers := s.callers + [Given(s.clients[i])])
    else if s.reconnecting[i].Some? then t.(callers := s.callers + [Joined(s.reconnecting[i].value)])
    else
      var a := |s.attempts|;
      t.(attempts := s.attempts + [InFlight(i)], reconnecting := s.reconnecting[i := Some(a)],
         callers := s.callers + [Joined(a)])
  }

  function DoSettle(s: State, a: nat, ok: bool): State
    requires Sized(s) && a < |s.attempts| && s.attempts[a].InFlight?
  {
    var i := s.attempts[a].slot;
    var t := s.(reconnecting := s.reconnecting[i := None]);
    if ok then
      t.(clients := s.clients[i := s.born], born := s.born + 1, attempts := s.attempts[a := Resolved(i, s.born)],
         log := s.log + [Replacement(i, s.clients[i], s.born)])
    else t.(attempts := s.attempts[a := Rejected(i)])
  }

  function Step(s: State, e: Event): (t: State)
    requires Sized(s)
    ensures Sized(t) && |t.clients| == |s.clients|
  {
    match e
    case Call => DoCall(s)
    case Settle(a, ok) => if a < |s.attempts| && s.attempts[a].InFlight? then DoSettle(s, a, ok) else s
    case Dies(conn) => if conn < s.born then s.(dead := s.dead + {conn}) else s
  }

  // What every reachable state keeps.

  /** A slot's promise is set exactly while its one attempt is in flight. */
  ghost predicate Sharing(s: State) {
    && Sized(s)
    && (forall a :: 0 <= a < |s.attempts| && s.attempts[a].InFlight? ==>
          s.reconnecting[s.attempts[a].slot] == Some(a))
    && (forall i :: 0 <= i < |s.clients| && s.reconnecting[i].Some? ==> Flying(s, i, s.reconnecting[i].value))
    && (forall c :: 0 <= c < |s.callers| && s.callers[c].Joined? ==> s.callers[c].attempt < |s.attempts|)
  }

  ghost predicate Flying(s: State, i: nat, a: nat) {
    a < |s.attempts| && s.attempts[a] == InFlight(i)
  }

  ghost function View(s: State): (p: PoolSpec.Pool)
    requires Sized(s)
    ensures |p.dialing| == |s.clients|
    ensures forall i :: 0 <= i < |s.clients| ==> p.dialing[i] == s.reconnecting[i].Some?
  {
    PoolSpec.Pool.Pool(s.clients, s.dead, s.born,
         seq(|s.clients|, i requires 0 <= i < |s.clients| => s.reconnecting[i].Some?), s.log)
  }

  ghost function MoveOf(s: State, e: Event): Move
    requires Sized(s)
  {
    match e
    case Call =>
      var i := s.next % |s.clients|;
      if s.clients[i] in s.dead && s.reconnecting[i].None? then Dial(i) else Stay
    case Settle(a, ok) =>
      if a < |s.attempts| && s.attempts[a].InFlight? then
        (if ok then Connected(s.attempts[a].slot) else Refused(s.attempts[a].slot))
      else Stay
    case Dies(conn) => if conn < s.born then Die(conn) else Stay
  }

  lemma CallRefines(s: State)
    requires Sharing(s)
    ensures Sharing(DoCall(s))
    ensures Allowed(View(s), MoveOf(s, Call)) && View(DoCall(s)) == Apply(View(s), MoveOf(s, Call))
  {}

  lemma SettleRefines(s: State, a: nat, ok: bool)
    requires Sharing(s) && a < |s.attempts| && s.attempts[a].InFlight?
    ensures Sharing(DoSettle(s, a, ok))
    ensures Allowed(View(s), MoveOf(s, Settle(a, ok)))
    ensures View(DoSettle(s, a, ok)) == Apply(View(s), MoveOf(s, Settle(a, ok)))
  {}

  /** The shared-promise pool only does what a pool may: every step is one move of the
      specification, the same one the locked pool follows. */
  lemma StepRefines(s: State, e: Event)
    requires Sharing(s)
    ensures Sharing(Step(s, e))
    ensures Allowed(View(s), MoveOf(s, e)) && View(Step(s, e)) == Apply(View(s), MoveOf(s, e))
  {
    hide DoCall, DoSettle;
    match e
    case Call => CallRefines(s);
    case Settle(a, ok) => if a < |s.attempts| && s.attempts[a].InFlight? { SettleRefines(s, a, ok); }
    case Dies(conn) => {}
  }

  function Run(s: State, es: seq<Event>): (t: State)
    requires Sized(s)
    ensures Sized(t) && |t.clients| == |s.clients|
    decreases |es|
  {
    if es == [] then s else Run(Step(s, es[0]), es[1..])
  }

  ghost function Moves(s: State, es: seq<Event>): seq<Move>
    requires Sized(s)
    decreases |es|
  {
    if es == [] then [] else [MoveOf(s, es[0])] + Moves(Step(s, es[0]), es[1..])
  }

  lemma {:induction false} RunRefines(s: State, es: seq<Event>)
    requires Sharing(s)
    ensures Sharing(Run(s, es))
    ensures RunOf(View(s), Moves(s, es)) && View(Run(s, es)) == After(View(s), Moves(s, es))
    decreases |es|
  {
    assert Sized(s);
    hide Step, View, MoveOf, Allowed, Apply, Sharing;
    if es != [] {
      StepRefines(s, es[0]);
      RunRefines(Step(s, es[0]), es[1..]);
      assert Moves(s, es)[0] == MoveOf(s, es[0]);
      assert Moves(s, es)[1..] == Moves(Step(s, es[0]), es[1..]);
    }
  }

  /** In every run: attempts in flight are for different slots, and the books of the specification
      balance, so no live connection is replaced or lost and none is retired twice. */
  lemma PoolIsSafe(n: nat, es: seq<Event>)
    requires n > 0
    ensures var s := Run(Start(n), es);
            && PoolSpec.Inv(View(s))
            && (forall a, b :: 0 <= a < b < |s.attempts| && s.attempts[a].InFlight? && s.attempts[b].InFlight? ==>
                  s.attempts[a].slot != s.attempts[b].slot)
            && (forall a :: 0 <= a < |s.attempts| && s.attempts[a].InFlight? ==>
                  s.clients[s.attempts[a].slot] in s.dead)
            && (forall i :: 0 <= i < n && i !in s.dead ==> s.clients[i] == i)
            && (forall conn :: 0 <= conn < s.born && conn !in s.dead ==> conn in s.clients)
  {
    var s0 := Start(n);
    assert View(s0) == Opened(n);
    RunRefines(s0, es);
    OpenedInv(n);
    RunKeeps(View(s0), Moves(s0, es));
    var s := Run(s0, es);
    assert Sharing(s);
    LiveIsKept(View(s));
    forall a | 0 <= a < |s.attempts| && s.attempts[a].InFlight? ensures s.clients[s.attempts[a].slot] in s.dead {
      assert View(s).dialing[s.attempts[a].slot];
    }
  }

  /** The caller that dialed and those that joined it all get that attempt's outcome: it settles
      once, to the connection then put in the slot or to a failure. */
  lemma {:induction false} SettlesOnce(s: State, es: seq<Event>, a: nat)
    requires Sized(s) && a < |s.attempts| && !s.attempts[a].InFlight?
    ensures var t := Run(s, es); a < |t.attempts| && t.attempts[a] == s.attempts[a]
    decreases |es|
  {
    if es != [] { SettlesOnce(Step(s, es[0]), es[1..], a); }
  }

  /** What a call gives, and what it leaves: the open connection of the ticket's slot, or a share in that
      slot's one attempt, the one in flight if there is one and otherwise a new one. */
  lemma CallGives(s: State)
    requires Sharing(s)
    ensures var i, t := s.next % |s.clients|, Step(s, Call);
            && t.next == s.next + 1 && t.clients == s.clients && t.dead == s.dead && t.born == s.born
            && |t.callers| == |s.callers| + 1 && t.callers[..|s.callers|] == s.callers
            && (match t.callers[|s.callers|]
                case Given(conn) => conn == s.clients[i] && conn !in s.dead && t.attempts == s.attempts
                case Joined(a) =>
                  && s.clients[i] in s.dead && a < |t.attempts| && t.attempts[a] == InFlight(i)
                  && (if InFlight(i) in s.attempts then t.attempts == s.attempts
                      else a == |s.attempts| && t.attempts == s.attempts + [InFlight(i)]))
  {
    var i := s.next % |s.clients|;
    if s.clients[i] in s.dead && s.reconnecting[i].None? {
      assert InFlight(i) !in s.attempts;
    }
  }

  /** How an attempt settles, and that its slot can then be dialed again: no attempt is in flight for it. */
  lemma SettleGives(s: State, a: nat, ok: bool)
    requires Sharing(s) && a < |s.attempts| && s.attempts[a].InFlight?
    ensures var i, t := s.attempts[a].slot, Step(s, Settle(a, ok));
            && |t.attempts| == |s.attempts| && InFlight(i) !in t.attempts && t.callers == s.callers && t.next == s.next
            && (ok ==> t.attempts[a] == Resolved(i, s.born) && t.clients == s.clients[i := s.born] && t.born == s.born + 1)
            && (!ok ==> t.attempts[a] == Rejected(i) && t.clients == s.clients && t.born == s.born)
  {
    var t := Step(s, Settle(a, ok));
    var i := s.attempts[a].slot;
    forall k | 0 <= k < |t.attempts| ensures t.attempts[k] != InFlight(i) {
      if k != a { assert t.attempts[k] == s.attempts[k]; }
    }
  }

  /** The counter has counted the callers, and those that share an attempt share that of their own slot. */
  ghost predicate InTurn(s: State) {
    && Sharing(s) && s.next == |s.callers|
    && forall c :: 0 <= c < |s.callers| && s.callers[c].Joined? ==>
         s.attempts[s.callers[c].attempt].slot == c % |s.clients|
  }

  lemma StepKeepsTurn(s: State, e: Event)
    requires InTurn(s)
    ensures InTurn(Step(s, e))
  {
    StepRefines(s, e);
    hide Sharing, MoveOf, View;
    var t := Step(s, e);
    forall c | 0 <= c < |t.callers| && t.callers[c].Joined?
      ensures t.callers[c].attempt < |t.attempts|
              && t.attempts[t.callers[c].attempt].slot == c % |t.clients|
    {
      if e.Call? {
        CallGives(s);
        assert c < |s.callers| ==> t.callers[c] == t.callers[..|s.callers|][c];
      }
      SharesExist(s);
      SlotsStay(s, e);
    }
  }

  lemma SharesExist(s: State)
    requires Sharing(s)
    ensures forall c :: 0 <= c < |s.callers| && s.callers[c].Joined? ==> s.callers[c].attempt < |s.attempts|
  {}

  lemma SlotsStay(s: State, e: Event)
    requires Sized(s)
    ensures |Step(s, e).attempts| >= |s.attempts|
    ensures forall a :: 0 <= a < |s.attempts| ==> Step(s, e).attempts[a].slot == s.attempts[a].slot
    ensures !e.Call? ==> Step(s, e).callers == s.callers && Step(s, e).next == s.next
  {}

  /** In every run the callers are sent to the slots in turn. */
  lemma {:induction false} CallersInTurn(s: State, es: seq<Event>)
    requires InTurn(s)
    ensures InTurn(Run(s, es))
    decreases |es|
  {
    assert Sized(s);
    hide InTurn, Step;
    if es != [] {
      StepKeepsTurn(s, es[0]);
      CallersInTurn(Step(s, es[0]), es[1..]);
    }
  }

  /** The pool object. */
  class Pool {
    var next: nat
    var clients: seq<Conn>
    var reconnecting: seq<Option<nat>>
    var attempts: seq<Attempt>
    var dead: set<Conn>
    var born: nat
    var callers: seq<Caller>
    ghost var log: seq<Replacement>

    ghost function Value(): State
      reads this
    {
      State(next, clients, reconnecting, attempts, dead, born, callers, log)
    }

    constructor (n: nat)
      requires n > 0
      ensures Value() == Start(n)
    {
      next, clients, reconnecting := 0, seq(n, i => i), seq(n, _ => None);
      attempts, dead, born, callers, log := [], {}, n, [], [];
    }

    /** Run to the first await: the next slot's client if it is open, the reconnect in flight if
        there is one, else a new reconnect that later callers of the slot will find. */
    method GetHealthy() returns (r: Caller)
      requires Sized(Value())
      modifies this
      ensures Value() == DoCall(old(Value())) && callers == old(callers) + [r]
    {
      var idx := next % |clients|;
      next := next + 1;
      var current := clients[idx];
      if current !in dead {
        r := Given(current);
        callers := callers + [r];
        return;
      }
      var inFlight := reconnecting[idx];
      if inFlight.Some? {
        r := Joined(inFlight.value);
        callers := callers + [r];
        return;
      }
      var attempt := |attempts|;
      attempts := attempts + [InFlight(idx)];
      reconnecting := reconnecting[idx := Some(attempt)];
      r := Joined(attempt);
      callers := callers + [r];
    }

    /** The connect of an attempt resolves or rejects; either way the slot's promise is cleared. */
    method Settle(attempt: nat, ok: bool)
      requires Sized(Value()) && attempt < |attempts| && attempts[attempt].InFlight?
      modifies this
      ensures Value() == DoSettle(old(Value()), attempt, ok)
    {
      var idx := attempts[attempt].slot;
      if ok {
        var newcomer := born;
        born := born + 1;
        log := log + [Replacement(idx, clients[idx], newcomer)];
        clients := clients[idx := newcomer];
        attempts := attempts[attempt := Resolved(idx, newcomer)];
      } else {
        attempts := attempts[attempt := Rejected(idx)];
      }
      reconnecting := reconnecting[idx := None];
    }

    method Drive(es: seq<Event>)
      requires Sized(Value())
      modifies this
      ensures Value() == Run(old(Value()), es)
    {
      hide DoCall, DoSettle;
      ghost var goal := Run(Value(), es);
      var k := 0;
      while k < |es|
        invariant k <= |es| && Sized(Value()) && Run(Value(), es[k..]) == goal
        decreases |es| - k
      {
        var e := es[k];
        assert es[k..][0] == e && es[k..][1..] == es[k + 1..];
        match e {
          case Call => var _ := GetHealthy();
          case Settle(a, ok) => if a < |attempts| && attempts[a].InFlight? { Settle(a, ok); }
          case Dies(conn) => if conn < born { dead := dead + {conn}; }
        }
        k := k + 1;
      }
    }
  }
}
