/** The out-queue of the pool, updated in place (robotbus/lib/MessagePool.cpp), proved against the
    functions on pools. Its blocks are values here; how a block itself is updated by what comes in
    and by a visit is proved in MessageBlocks. */
module MessagePools {
  import opened Basics
  import opened DataObjects
  import opened OutBlocks
  import opened OutPools
  import OutRounds

  class MessagePool {
    var outMessageQueue: seq<Entry>
    var gId: int

    ghost function View(): Pool
      reads this
    {
      Pool(outMessageQueue, gId)
    }

    constructor ()
      ensures View() == Pool([], 0) && Ok(View())
    {
      outMessageQueue, gId := [], 0;
    }

    /** Queues the message, refuses it, or sends it at once, when the block that comes back is what is
        left of it. */
    method SendMessage(ip: string, mb: Block, net: int) returns (rc: int, after: Block)
      requires Ok(View()) && Sendable(mb) && gId + 1 < 0x8000_0000
      modifies this
      ensures Ok(View()) && (View(), rc) == Submitted(old(View()), ip, mb)
      ensures !Queues(mb) ==> after == Sent(mb.(f := Restarted(mb.f)), net)
    {
      SubmittedIsOk(View(), ip, mb);
      after := mb.(f := Restarted(mb.f));
      if mb.hasCompleted || NeedsFragments(mb.f) {
        if |outMessageQueue| > QUEUE_LIMIT { return -1, after; }
        gId := gId + 1;
        after := after.(f := after.f.(tag := after.f.tag.(uid := gId)), status := Waiting);
        outMessageQueue := outMessageQueue + [Entry(ip, after)];
      } else {
        after := Sent(after, net);
      }
      return 0, after;
    }

    /** The search of onOutMessageEvent. */
    method Find(uid: int32, ip: string) returns (k: nat)
      ensures k == OutPools.Find(outMessageQueue, uid, ip)
    {
      k := 0;
      while k < |outMessageQueue|
        invariant k <= |outMessageQueue|
        invariant OutPools.Find(outMessageQueue, uid, ip) == k + OutPools.Find(outMessageQueue[k..], uid, ip)
      {
        if outMessageQueue[k].b.f.tag.uid == uid && outMessageQueue[k].ip == ip { return; }
        k := k + 1;
      }
    }

    method OnOutMessageEvent(uid: int32, ip: string, what: int32, net: int)
      requires Ok(View())
      modifies this`outMessageQueue
      ensures Ok(View()) && View() == Delivered(old(View()), uid, ip, what, net)
    {
      ApplyIsOk(View(), Incoming(uid, ip, what, net));
      var k := Find(uid, ip);
      if k == |outMessageQueue| { return; }
      assert EntryOk(View(), k);
      var b := OnOutMessage(outMessageQueue[k].b, what, net);
      outMessageQueue := outMessageQueue[k := outMessageQueue[k].(b := b)];
    }

    /** The body of the loop's pass. */
    method Visit(k: nat, net: int)
      requires Ok(View()) && k < |outMessageQueue|
      modifies this`outMessageQueue
      ensures Ok(View()) && View() == VisitedAt(old(View()), k, net)
    {
      ApplyIsOk(View(), OutPools.Visit(k, net));
      assert EntryOk(View(), k);
      var b := Visited(outMessageQueue[k].b, net);
      if b.status == Idle {
        outMessageQueue := Without(outMessageQueue, k);
      } else {
        outMessageQueue := outMessageQueue[k := outMessageQueue[k].(b := b)];
      }
    }

    /** A pass of updateLooper over the out-queue: after an erasure the iterator already stands at the
        next entry, and is moved on all the same. */
    method UpdateLooper(nets: nat -> int)
      requires Ok(View())
      modifies this`outMessageQueue
      ensures Ok(View()) && View() == OutRounds.Passed(old(View()), 0, nets)
    {
      ghost var p := View();
      var i := 0;
      while i < |outMessageQueue|
        invariant Ok(View()) && gId == old(gId)
        invariant OutRounds.Passed(p, 0, nets) == OutRounds.Passed(View(), i, nets)
        decreases |outMessageQueue| - i
      {
        OutRounds.PassGoesOn(View(), i, nets, 0, "");
        Visit(i, nets(i));
        i := i + 1;
      }
    }
  }
}
