/**
 What a connection pool may do to its slots, whichever way its callers are kept from dialing
 twice: connections die, a dial may start for a slot whose connection is dead, and a finished dial
 may put a fresh connection in that slot.
 */
module PoolSpec {

  type Conn = nat

  datatype Replacement = Replacement(slot: nat, retired: Conn, newcomer: Conn)

  /** Connections are numbered in the order they were opened; `dialing` says which slots have a dial
      in flight. */
  datatype Pool = Pool(slots: seq<Conn>, dead: set<Conn>, born: nat, dialing: seq<bool>, log: seq<Replacement>)

  datatype Move = Stay | Die(conn: Conn) | Dial(slot: nat) | Connected(slot: nat) | Refused(slot: nat)

  ghost predicate Allowed(p: Pool, m: Move) {
    match m
    case Stay => true
    case Die(conn) => conn < p.born
    case Dial(i) => i < |p.slots| == |p.dialing| && !p.dialing[i] && p.slots[i] in p.dead
    case Connected(i) => i < |p.slots| == |p.dialing| && p.dialing[i]
    case Refused(i) => i < |p.slots| == |p.dialing| && p.dialing[i]
  }

  ghost function Apply(p: Pool, m: Move): Pool
    requires Allowed(p, m)
  {
    match m
    case Stay => p
    case Die(conn) => p.(dead := p.dead + {conn})
    case Dial(i) => p.(dialing := p.dialing[i := true])
    case Connected(i) =>
      p.(slots := p.slots[i := p.born], born := p.born + 1, dialing := p.dialing[i := false],
         log := p.log + [Replacement(i, p.slots[i], p.born)])
    case Refused(i) => p.(dialing := p.dialing[i := false])
  }

  ghost function Retired(log: seq<Replacement>): (rs: seq<Conn>)
    ensures |rs| == |log| && forall k :: 0 <= k < |log| ==> rs[k] == log[k].retired
  {
    seq(|log|, k requires 0 <= k < |log| => log[k].retired)
  }

  ghost predicate Distinct(cs: seq<Conn>) {
    forall i, j :: 0 <= i < j < |cs| ==> cs[i] != cs[j]
  }

  ghost predicate InRange(p: Pool) {
    && |p.dialing| == |p.slots|
    && (forall i :: 0 <= i < |p.slots| ==> p.slots[i] < p.born)
    && (forall k :: 0 <= k < |p.log| ==> p.log[k].retired in p.dead && p.log[k].retired < p.born)
  }

  /** Every connection ever opened is in exactly one slot or was retired exactly once. */
  ghost predicate Conserved(p: Pool) {
    && Distinct(p.slots + Retired(p.log))
    && |p.slots| + |p.log| == p.born
    && (forall c :: 0 <= c < p.born ==> c in p.slots || c in Retired(p.log))
  }

  /** A dial is only ever in flight for a slot whose connection is dead. */
  ghost predicate DialsReplaceDead(p: Pool) {
    |p.dialing| == |p.slots| && forall i :: 0 <= i < |p.slots| && p.dialing[i] ==> p.slots[i] in p.dead
  }

  ghost predicate Inv(p: Pool) { InRange(p) && Conserved(p) && DialsReplaceDead(p) }

  lemma {:induction false} MoveKeeps(p: Pool, m: Move)
    requires Inv(p) && Allowed(p, m)
    ensures Inv(Apply(p, m))
  {
    if m.Connected? {
      ReplaceConserves(p, m.slot);
    }
  }

  lemma {:induction false} ReplaceConserves(p: Pool, i: nat)
    requires InRange(p) && Conserved(p) && Allowed(p, Connected(i))
    ensures Conserved(Apply(p, Connected(i)))
  {
    var q := Apply(p, Connected(i));
    var n, before, after := |p.slots|, p.slots + Retired(p.log), q.slots + Retired(q.log);
    assert Retired(q.log) == Retired(p.log) + [p.slots[i]];
    assert after == before[i := p.born] + [before[i]];
    forall c | 0 <= c < q.born ensures c in q.slots || c in Retired(q.log) {
      if c == p.born {
        assert q.slots[i] == c;
      } else if c in p.slots {
        var k :| 0 <= k < n && p.slots[k] == c;
        if k == i {
          assert Retired(q.log)[|p.log|] == c;
        } else {
          assert q.slots[k] == c;
        }
      } else {
        var k :| 0 <= k < |p.log| && Retired(p.log)[k] == c;
        assert Retired(q.log)[k] == c;
      }
    }
  }

  // Whole runs.

  ghost predicate RunOf(p: Pool, ms: seq<Move>)
    decreases |ms|
  {
    ms == [] || (Allowed(p, ms[0]) && RunOf(Apply(p, ms[0]), ms[1..]))
  }

  ghost function After(p: Pool, ms: seq<Move>): Pool
    requires RunOf(p, ms)
    decreases |ms|
  {
    if ms == [] then p else After(Apply(p, ms[0]), ms[1..])
  }

  ghost function Opened(n: nat): Pool {
    Pool(seq(n, i => i), {}, n, seq(n, _ => false), [])
  }

  lemma OpenedInv(n: nat)
    ensures Inv(Opened(n))
  {
    var p := Opened(n);
    assert Retired(p.log) == [];
    forall c | 0 <= c < n ensures c in p.slots { assert p.slots[c] == c; }
  }

  /** In every run of a pool the books balance, a dial in flight is for a dead connection, and a
      connection that is alive at the end never lost its slot. */
  lemma {:induction false} RunKeeps(p: Pool, ms: seq<Move>)
    requires Inv(p) && RunOf(p, ms)
    ensures var q := After(p, ms);
            && Inv(q)
            && |q.slots| == |p.slots|
            && p.dead <= q.dead
            && p.log <= q.log
            && (forall i :: 0 <= i < |p.slots| && p.slots[i] !in q.dead ==> q.slots[i] == p.slots[i])
    decreases |ms|
  {
    hide InRange, Conserved;
    if ms != [] {
      MoveKeeps(p, ms[0]);
      RunKeeps(Apply(p, ms[0]), ms[1..]);
    }
  }

  /** Each successful dial retires one dead connection for one fresh one, and no connection is ever
      retired twice, however many callers found it dead. */
  lemma RetiredOnce(p: Pool, j: nat, k: nat)
    requires Inv(p) && j < k < |p.log|
    ensures p.log[j].retired != p.log[k].retired
    ensures p.log[k].retired in p.dead && p.log[k].retired !in p.slots
  {
    var all := p.slots + Retired(p.log);
    var n := |p.slots|;
    assert all[n + j] == p.log[j].retired && all[n + k] == p.log[k].retired;
    forall i | 0 <= i < n ensures p.slots[i] != p.log[k].retired {
      assert all[i] == p.slots[i];
    }
  }

  /** No live connection is ever lost. */
  lemma LiveIsKept(p: Pool)
    requires Inv(p)
    ensures forall c :: 0 <= c < p.born && c !in p.dead ==> c in p.slots
  {
    var rs := Retired(p.log);
    assert forall k :: 0 <= k < |rs| ==> rs[k] in p.dead;
  }
}
