/** When has a receiver got a whole message, whatever order and number its datagrams arrive in
    (robotbus/lib/BytesObject.cpp:129-167)? When the fragments have come in turn since the last time the first
    one came. */
module Receptions {
  import opened Basics
  import opened Wire
  import opened OutBlocks
  import opened OutRuns
  import opened InBlocks

  /** The first n fragments were delivered at these moments, in this order, and no fragment 0 came after the
      one they begin with. */
  predicate At(ks: seq<nat>, js: seq<nat>, n: nat) {
    && 1 <= n == |js|
    && (forall i :: 0 <= i < n ==> js[i] < |ks| && ks[js[i]] == i)
    && (forall i, l :: 0 <= i < l < n ==> js[i] < js[l])
    && (forall t :: js[0] < t < |ks| ==> ks[t] != 0)
  }

  ghost predicate InTurn(ks: seq<nat>, n: nat) {
    exists js: seq<nat> :: At(ks, js, n)
  }

  lemma {:induction false} CountOneMore(p: nat, ks: seq<nat>, k: nat)
    ensures CountAll(p, ks + [k]) == Counted(CountAll(p, ks), k)
    decreases |ks|
  {
    if ks == [] {
      assert ([] + [k])[1..] == [];
    } else {
      assert (ks + [k])[0] == ks[0] && (ks + [k])[1..] == ks[1..] + [k];
      CountOneMore(Counted(p, ks[0]), ks[1..], k);
    }
  }

  lemma LaterKeeps(ks: seq<nat>, k: nat, js: seq<nat>, n: nat)
    requires At(ks, js, n) && k != 0
    ensures At(ks + [k], js, n)
    ensures k == n ==> At(ks + [k], js + [|ks|], n + 1)
  {
  }

  /** As many fragments as the counter says have come in turn. */
  lemma {:induction false} CountIsInTurn(ks: seq<nat>)
    ensures CountAll(0, ks) > 0 ==> InTurn(ks, CountAll(0, ks))
    decreases |ks|
  {
    if ks != [] {
      var front, k := ks[..|ks| - 1], ks[|ks| - 1];
      assert ks == front + [k];
      CountIsInTurn(front);
      CountOneMore(0, front, k);
      var p := CountAll(0, front);
      if k == 0 {
        assert At(ks, [|front|], 1);
      } else if p > 0 {
        var js :| At(front, js, p);
        LaterKeeps(front, k, js, p);
      }
    }
  }

  lemma Shorter(ks: seq<nat>, k: nat, js: seq<nat>, n: nat)
    requires At(ks + [k], js, n)
    ensures if k == 0 then n == 1
            else if js[n - 1] == |ks| then k == n - 1 >= 1 && At(ks, js[..n - 1], n - 1)
            else At(ks, js, n)
  {
    var all := ks + [k];
    if k == 0 {
      assert all[|ks|] == 0 && js[0] == |ks|;
    } else {
      assert forall t :: 0 <= t < |ks| ==> all[t] == ks[t];
      assert forall i :: 0 <= i < n - 1 ==> js[i] < js[n - 1];
      if js[n - 1] == |ks| { assert all[js[n - 1]] == k; }
    }
  }

  /** And no more have. */
  lemma {:induction false} InTurnIsCounted(ks: seq<nat>, js: seq<nat>, n: nat)
    requires At(ks, js, n)
    ensures CountAll(0, ks) >= n
    decreases |ks|
  {
    assert js[0] < |ks|;
    var front, k := ks[..|ks| - 1], ks[|ks| - 1];
    assert ks == front + [k];
    CountOneMore(0, front, k);
    Shorter(front, k, js, n);
    if k != 0 {
      if js[n - 1] == |front| {
        InTurnIsCounted(front, js[..n - 1], n - 1);
      } else {
        InTurnIsCounted(front, js, n);
      }
    }
  }

  lemma {:induction false} CountIsAtMost(p: nat, ks: seq<nat>, n: nat)
    requires p <= n && 1 <= n && forall i :: 0 <= i < |ks| ==> ks[i] < n
    ensures CountAll(p, ks) <= n
    decreases |ks|
  {
    if ks != [] { CountIsAtMost(Counted(p, ks[0]), ks[1..], n); }
  }

  /** Reception, exactly: the datagrams with these fragments make up the message if and only if, since the
      last time the first fragment came, all the others have come in turn, with any others in between. */
  lemma ArrivesIff(m: Content, ks: seq<nat>)
    requires Transferable(m) && forall i :: 0 <= i < |ks| ==> ks[i] < AllOf(m)
    ensures Arrived(TakeAll(Empty, Datagrams(m, ks)), m) <==> InTurn(ks, AllOf(m))
  {
    BoundaryOf(m, 0);
    DatagramsAreFragments(Empty, m, 0, ks);
    FragmentSafety(Empty, m, 0, ks);
    CountIsAtMost(0, ks, AllOf(m));
    CountIsInTurn(ks);
    if js :| At(ks, js, AllOf(m)) { InTurnIsCounted(ks, js, AllOf(m)); }
  }

  /** From end to end: whatever run the message goes through on the sending side, a receiver of the bytes of the
      packets at js has it if and only if their fragments came in turn. */
  lemma PickedArriveIff(b: Block, uid: int32, es: seq<Event>, js: seq<nat>)
    requires Sized(b.f) && b.f.wire == [] && Transferable(ContentOf(b.f)) && Sound(Queued(b, uid))
    requires var w := Run(Line(Queued(b, uid), true), es).b.f.wire; forall i :: 0 <= i < |js| ==> js[i] < |w|
    ensures var f := Run(Line(Queued(b, uid), true), es).b.f;
      && Transferable(ContentOf(f)) && ContentOf(f).data == ContentOf(b.f).data
      && (Arrived(TakeAll(Empty, PickedBytes(f.wire, js)), ContentOf(f))
          <==> InTurn(Picked(f.wire, js), AllOf(ContentOf(f))))
  {
    hide Arrived, InTurn, TakeAll;
    RunKeepsMessage(Line(Queued(b, uid), true), es);
    var c := Run(Line(Queued(b, uid), true), es).b;
    PickedAreFragments(c, js);
    assert PickedBytes(c.f.wire, js) == Datagrams(ContentOf(c.f), Picked(c.f.wire, js));
    ArrivesIff(ContentOf(c.f), Picked(c.f.wire, js));
  }
}
