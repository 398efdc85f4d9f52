/** One stream's inbound frames, and what a request must make of them. */
module Answers {
  import opened Bytes
  import opened FrameCodec

  const OP_ERROR: u16 := 0x00ff
  const OP_SERVER_PING: u16 := 0x0091

  /** The frames of `inbound` that belong to stream `id`; heartbeats never reach a stream. */
  function OnStream(inbound: seq<Frame>, id: u32): seq<Frame> {
    if |inbound| == 0 then []
    else
      var f, before := inbound[|inbound| - 1], OnStream(inbound[..|inbound| - 1], id);
      if f.opcode != OP_SERVER_PING && f.streamId == id then before + [f] else before
  }

  lemma OnStreamPush(inbound: seq<Frame>, f: Frame, id: u32)
    ensures OnStream(inbound + [f], id) ==
            if f.opcode != OP_SERVER_PING && f.streamId == id then OnStream(inbound, id) + [f]
            else OnStream(inbound, id)
  {
    assert (inbound + [f])[..|inbound|] == inbound;
  }

  predicate HasEos(x: seq<Frame>) { exists f :: f in x && f.Eos() }

  predicate HasError(x: seq<Frame>) { exists f :: f in x && f.opcode == OP_ERROR }

  /** `x` up to and including its first EOS frame. */
  function Cut(x: seq<Frame>): seq<Frame> {
    if |x| == 0 then [] else if x[0].Eos() then [x[0]] else [x[0]] + Cut(x[1..])
  }

  /** What the frames say so far: nothing final, a whole response, or a server error. */
  datatype Answer = Open | Complete(frames: seq<Frame>) | Refused(frame: Frame)

  function Read(x: seq<Frame>): Answer {
    if |x| == 0 then Open
    else if x[0].opcode == OP_ERROR then Refused(x[0])
    else if x[0].Eos() then Complete([x[0]])
    else
      var a := Read(x[1..]);
      if a.Complete? then Complete([x[0]] + a.frames) else a
  }

  lemma HasEosStep(x: seq<Frame>)
    ensures x != [] ==> (HasEos(x) <==> x[0].Eos() || HasEos(x[1..]))
    ensures x != [] ==> (HasError(x) <==> x[0].opcode == OP_ERROR || HasError(x[1..]))
  {}

  lemma HasEosAppend(x: seq<Frame>, y: seq<Frame>)
    ensures HasEos(x + y) <==> HasEos(x) || HasEos(y)
    ensures HasError(x + y) <==> HasError(x) || HasError(y)
  {
    assert forall f :: f in x + y <==> f in x || f in y;
  }

  lemma CutUnfold(x: seq<Frame>)
    ensures Cut(x) == if |x| == 0 then [] else if x[0].Eos() then [x[0]] else [x[0]] + Cut(x[1..])
  {}

  lemma {:induction false} CutAppend(x: seq<Frame>, y: seq<Frame>)
    ensures Cut(x + y) == if HasEos(x) then Cut(x) else x + Cut(y)
  {
    hide HasEos, Cut;
    HasEosStep(x);
    CutUnfold(x);
    CutUnfold(x + y);
    if |x| == 0 {
      assert x + y == y;
      assert !HasEos(x) by { NothingEnds(); }
    } else {
      assert (x + y)[1..] == x[1..] + y;
      CutAppend(x[1..], y);
      assert x == [x[0]] + x[1..];
    }
  }

  lemma NothingEnds()
    ensures !HasEos([]) && !HasError([])
  {}

  lemma CutWhole(x: seq<Frame>)
    requires !HasEos(x)
    ensures Cut(x) == x
  {
    CutAppend(x, []);
    assert x + [] == x;
  }

  lemma {:induction false} CutEnds(x: seq<Frame>)
    ensures HasEos(Cut(x)) <==> HasEos(x)
  {
    hide HasEos;
    HasEosStep(x);
    HasEosStep(Cut(x));
    if |x| > 0 && !x[0].Eos() {
      CutEnds(x[1..]);
      assert Cut(x)[1..] == Cut(x[1..]);
    }
  }

  /** Two sequences that agree up to the first EOS still do after the same frame. */
  lemma CutPush(x: seq<Frame>, y: seq<Frame>, f: Frame)
    requires Cut(x) == Cut(y)
    ensures Cut(x + [f]) == Cut(y + [f])
  {
    hide HasEos;
    CutEnds(x);
    CutEnds(y);
    CutAppend(x, [f]);
    CutAppend(y, [f]);
    if !HasEos(x) {
      CutWhole(x);
      CutWhole(y);
    }
  }

  lemma {:induction false} ReadCut(x: seq<Frame>)
    ensures Read(Cut(x)) == Read(x)
  {
    if |x| > 0 && !x[0].Eos() {
      ReadCut(x[1..]);
      assert Cut(x)[1..] == Cut(x[1..]);
    }
  }

  lemma {:induction false} ReadPrefix(g: seq<Frame>, x: seq<Frame>)
    requires !HasEos(g) && !HasError(g)
    ensures Read(g + x) == (var a := Read(x); if a.Complete? then Complete(g + a.frames) else a)
  {
    hide HasEos, HasError;
    HasEosStep(g);
    if |g| == 0 {
      assert g + x == x;
    } else {
      assert (g + x)[1..] == g[1..] + x;
      ReadPrefix(g[1..], x);
      assert g == [g[0]] + g[1..];
    }
  }

  /** A final answer stays what it is when more frames arrive. */
  lemma {:induction false} ReadStable(x: seq<Frame>, y: seq<Frame>)
    requires Read(x) != Open
    ensures Read(x + y) == Read(x)
  {
    assert (x + y)[0] == x[0];
    if x[0].opcode != OP_ERROR && !x[0].Eos() {
      assert (x + y)[1..] == x[1..] + y;
      ReadStable(x[1..], y);
    }
  }

  /** A whole response is the stream up to and including its first EOS, with no ERROR in it. */
  lemma {:induction false} CompleteMeans(x: seq<Frame>, fs: seq<Frame>)
    ensures Read(x) == Complete(fs) <==> HasEos(x) && fs == Cut(x) && !HasError(fs)
  {
    hide HasEos, HasError;
    HasEosStep(x);
    HasEosStep(fs);
    NothingEnds();
    if |x| > 0 && x[0].Eos() {
      HasEosStep([x[0]]);
      assert [x[0]][1..] == [];
    } else if |x| > 0 && |fs| > 0 {
      CompleteMeans(x[1..], fs[1..]);
      assert fs == [fs[0]] + fs[1..];
      assert Cut(x)[1..] == Cut(x[1..]);
    } else if |x| > 0 {
      assert Cut(x) != [];
    }
  }

  /** A server error is the first ERROR frame, with no EOS before it. */
  lemma {:induction false} RefusedMeans(x: seq<Frame>, e: Frame)
    ensures Read(x) == Refused(e) <==>
            exists i :: 0 <= i < |x| && x[i] == e && e.opcode == OP_ERROR && !HasEos(x[..i]) && !HasError(x[..i])
  {
    if |x| > 0 {
      if x[0].opcode == OP_ERROR {
        assert x[..0] == [];
        forall i | 0 < i < |x|
          ensures HasError(x[..i])
        {
          assert x[..i][0] == x[0];
        }
      } else if x[0].Eos() {
        forall i | 0 < i < |x|
          ensures HasEos(x[..i])
        {
          assert x[..i][0] == x[0];
        }
      } else {
        RefusedMeans(x[1..], e);
        forall i | 0 < i < |x|
          ensures HasEos(x[..i]) == HasEos(x[1..][..i - 1]) && HasError(x[..i]) == HasError(x[1..][..i - 1])
        {
          assert x[..i] == [x[0]] + x[1..][..i - 1];
          HasEosStep(x[..i]);
        }
        if Read(x) == Refused(e) {
          var j :| 0 <= j < |x[1..]| && x[1..][j] == e && !HasEos(x[1..][..j]) && !HasError(x[1..][..j]);
          assert x[j + 1] == e;
        }
      }
    }
  }
}
