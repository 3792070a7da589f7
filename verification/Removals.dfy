/** What a stop of a class of commands and a cancellation take away, and what they leave
    (server/RDSTask.cpp:160-236): said in classes, session ids, slots and places of the queue. */
module Removals {
  import opened Basics
  import opened Commands
  import opened Scheduler

  /** The numbers of the classes. */
  predicate OfClassNumber(c: Command, cls: int) {
    match c.kind
    case Setting => cls == 0x01
    case Motor(_) => cls == 0x02
    case Action => cls == 0x04
    case Position(_) => cls == 0x08
    case Emoji => cls == 0x0A
    case Controller => cls == 0x1000
  }

  /** The elements that satisfy p, in order. */
  function Pick<T>(s: seq<T>, p: T -> bool): seq<T> {
    if s == [] then [] else (if p(s[0]) then [s[0]] else []) + Pick(s[1..], p)
  }

  /** All of them are there, in the same order, and nothing else. */
  lemma {:induction false} PickIsAll<T>(s: seq<T>, p: T -> bool, x: T)
    ensures x in Pick(s, p) <==> x in s && p(x)
  {
    if s != [] { PickIsAll(s[1..], p, x); }
  }

  lemma {:induction false} PickIndex<T>(s: seq<T>, p: T -> bool, k: nat) returns (i: nat)
    requires k < |s| && p(s[k])
    ensures i < |Pick(s, p)| && Pick(s, p)[i] == s[k]
  {
    if k == 0 {
      i := 0;
    } else {
      i := PickIndex(s[1..], p, k - 1);
      if p(s[0]) { i := i + 1; }
    }
  }

  lemma {:induction false} PickKeepsOrder<T>(s: seq<T>, p: T -> bool, k: nat, l: nat) returns (i: nat, j: nat)
    requires k < l < |s| && p(s[k]) && p(s[l])
    ensures i < j < |Pick(s, p)| && Pick(s, p)[i] == s[k] && Pick(s, p)[j] == s[l]
  {
    if k == 0 {
      j := PickIndex(s[1..], p, l - 1);
      i, j := 0, j + 1;
    } else {
      i, j := PickKeepsOrder(s[1..], p, k - 1, l - 1);
      if p(s[0]) { i, j := i + 1, j + 1; }
    }
  }

  /** The commands that are out, by their slots. */
  function Outstanding(slots: seq<Option<Command>>): seq<Command> {
    if slots == [] then []
    else (if slots[0].Some? then [slots[0].value] else []) + Outstanding(slots[1..])
  }

  /** The final report of a command that is ended. */
  predicate Tells(n: Note, c: Command, error: int) {
    && n.Final? && n.id == c.id && n.error == error
    && n.channel == (if c.hasCallback then ToCallback else if c.hasListener then Nobody else ToService)
  }

  /** One report for each of these, in this order. */
  ghost predicate TellAll(notes: seq<Note>, cs: seq<Command>, error: int) {
    |notes| == |cs| && forall j :: 0 <= j < |cs| ==> Tells(notes[j], cs[j], error)
  }

  /** Exactly these commands leave: the slots of the others and their order in the queue stay, and there is one
      report for each that has left, those that were out first. */
  ghost predicate Removes(s: State, t: State, gone: Command -> bool) {
    && |t.slots| == |s.slots|
    && (forall i :: 0 <= i < |s.slots| ==>
          t.slots[i] == if s.slots[i].Some? && gone(s.slots[i].value) then None else s.slots[i])
    && t.queue == Pick(s.queue, c => !gone(c))
    && |s.notes| <= |t.notes| && t.notes[..|s.notes|] == s.notes
    && TellAll(t.notes[|s.notes|..], Pick(Outstanding(s.slots), gone) + Pick(s.queue, gone), -3)
    && t == s.(slots := t.slots, queue := t.queue, notes := t.notes)
  }

  // ---- the two walks ----

  predicate Chooses(f: Filter, gone: Command -> bool, c: Command) {
    Hits(f, c) == gone(c)
  }

  lemma EndingTells(c: Command, error: int)
    requires error != 0
    ensures var ns := FinishNotes(c, 0, error); |ns| == 1 && Tells(ns[0], c, error)
  {
  }

  lemma TellOneMore(n: Note, c: Command, notes: seq<Note>, cs: seq<Command>, error: int)
    requires Tells(n, c, error) && TellAll(notes, cs, error)
    ensures TellAll([n] + notes, [c] + cs, error)
  {
    hide Tells;
  }

  lemma TellBoth(a: seq<Note>, b: seq<Note>, cs: seq<Command>, ds: seq<Command>, error: int)
    requires TellAll(a, cs, error) && TellAll(b, ds, error)
    ensures TellAll(a + b, cs + ds, error)
  {
    hide Tells;
  }

  lemma {:induction false} QueueWalk(f: Filter, q: seq<Command>, gone: Command -> bool)
    requires forall c :: Chooses(f, gone, c)
    ensures Spared(f, q) == Pick(q, c => !gone(c)) && TellAll(HitNotes(f, q), Pick(q, gone), -3)
  {
    if q != [] {
      QueueWalk(f, q[1..], gone);
      assert Chooses(f, gone, q[0]);
      EndingTells(q[0], -3);
      hide FinishNotes, TellAll;
      if gone(q[0]) {
        var n := FinishNotes(q[0], 0, -3)[0];
        assert FinishNotes(q[0], 0, -3) == [n];
        TellOneMore(n, q[0], HitNotes(f, q[1..]), Pick(q[1..], gone), -3);
      } else {
        assert [] + HitNotes(f, q[1..]) == HitNotes(f, q[1..]) && [] + Pick(q[1..], gone) == Pick(q[1..], gone);
      }
    }
  }

  lemma {:induction false} SlotWalk(f: Filter, slots: seq<Option<Command>>, gone: Command -> bool)
    requires forall c :: Chooses(f, gone, c)
    ensures TellAll(SweepNotes(Kill(f), slots), Pick(Outstanding(slots), gone), -3)
  {
    if slots != [] {
      SlotWalk(f, slots[1..], gone);
      var cs, o := Outstanding(slots[1..]), slots[0];
      if o.Some? {
        assert Chooses(f, gone, o.value);
        EndingTells(o.value, -3);
        assert ([o.value] + cs)[1..] == cs;
      } else {
        assert [] + cs == cs;
      }
      hide FinishNotes, TellAll;
      var notes := SweepNotes(Kill(f), slots[1..]);
      if o.Some? && gone(o.value) {
        var n := FinishNotes(o.value, 0, -3)[0];
        assert FinishNotes(o.value, 0, -3) == [n];
        TellOneMore(n, o.value, notes, Pick(cs, gone), -3);
      } else {
        assert [] + notes == notes && [] + Pick(cs, gone) == Pick(cs, gone);
      }
    }
  }

  lemma SweepsRemove(s: State, f: Filter, gone: Command -> bool)
    requires forall c :: Chooses(f, gone, c)
    ensures Removes(s, SweepQueue(f, SweepSlots(Kill(f), s)), gone)
  {
    hide TellAll, Pick, Spared, HitNotes, SweepNotes, Outstanding;
    var t := SweepQueue(f, SweepSlots(Kill(f), s));
    QueueWalk(f, s.queue, gone);
    SlotWalk(f, s.slots, gone);
    forall i | 0 <= i < |s.slots|
      ensures t.slots[i] == if s.slots[i].Some? && gone(s.slots[i].value) then None else s.slots[i]
    {
      if s.slots[i].Some? { assert Chooses(f, gone, s.slots[i].value); }
    }
    var a, b := SweepNotes(Kill(f), s.slots), HitNotes(f, s.queue);
    assert t.notes == s.notes + (a + b);
    TellBoth(a, b, Pick(Outstanding(s.slots), gone), Pick(s.queue, gone), -3);
    assert t.notes[|s.notes|..] == a + b;
  }

  /** A stop of a class ends every command of that class, out or queued, with -3, and no other. */
  lemma StopRemoves(s: State, cls: int)
    ensures Removes(s, StopMotion(s, cls), c => OfClassNumber(c, cls))
  {
    var gone := (c: Command) => OfClassNumber(c, cls);
    assert forall c :: Chooses(OfClass(cls), gone, c);
    SweepsRemove(s, OfClass(cls), gone);
  }

  /** A cancellation of a session ends the command of that id, wherever it is. */
  lemma CancelRemoves(s: State, session: int)
    requires session != 0
    ensures Removes(s, CancelCommand(s, session), (c: Command) => c.id == session)
  {
    var gone := (c: Command) => c.id == session;
    assert forall c :: Chooses(OfSession(session), gone, c);
    SweepsRemove(s, OfSession(session), gone);
  }

  lemma {:induction false} PickEvery<T>(s: seq<T>, p: T -> bool)
    requires forall x :: x in s ==> p(x)
    ensures Pick(s, p) == s
  {
    if s != [] { PickEvery(s[1..], p); }
  }

  /** The cancellation of everything ends all that is out with -3, and empties the queue without a word. */
  lemma CancelAllRemoves(s: State)
    ensures var t := CancelCommand(s, 0);
      && t.queue == [] && |t.slots| == |s.slots| && (forall i :: 0 <= i < |t.slots| ==> t.slots[i].None?)
      && |s.notes| <= |t.notes| && t.notes[..|s.notes|] == s.notes
      && TellAll(t.notes[|s.notes|..], Outstanding(s.slots), -3)
      && |t.dropped| == |s.dropped| + |s.queue| && t.dropped[..|s.dropped|] == s.dropped
      && (forall k :: 0 <= k < |s.queue| ==> t.dropped[|s.dropped| + k] == s.queue[k].id)
      && t == s.(queue := [], slots := t.slots, notes := t.notes, dropped := t.dropped)
  {
    var gone := (c: Command) => true;
    assert forall c :: Chooses(Everything, gone, c);
    SlotWalk(Everything, s.slots, gone);
    PickEvery(Outstanding(s.slots), gone);
    assert CancelCommand(s, 0).notes[|s.notes|..] == SweepNotes(Kill(Everything), s.slots);
    hide TellAll;
  }

  /** So after a stop nothing of the class is left, and all else is. */
  lemma NothingIsLeft(s: State, cls: int)
    ensures var t := StopMotion(s, cls);
      && (forall c :: c in t.queue <==> c in s.queue && !OfClassNumber(c, cls))
      && (forall i :: 0 <= i < |t.slots| && t.slots[i].Some? ==> !OfClassNumber(t.slots[i].value, cls))
  {
    StopRemoves(s, cls);
    forall c ensures c in StopMotion(s, cls).queue <==> c in s.queue && !OfClassNumber(c, cls) {
      var stays := (d: Command) => !OfClassNumber(d, cls);
      PickIsAll(s.queue, stays, c);
      SamePick(s.queue, stays, d => !((c: Command) => OfClassNumber(c, cls))(d));
    }
  }

  lemma {:induction false} SamePick<T>(s: seq<T>, p: T -> bool, q: T -> bool)
    requires forall x :: x in s ==> p(x) == q(x)
    ensures Pick(s, p) == Pick(s, q)
  {
    if s != [] { SamePick(s[1..], p, q); }
  }

  // ---- the expiry pass ----

  lemma {:induction false} ExpiryWalk(dt: int, slots: seq<Option<Command>>)
    ensures TellAll(SweepNotes(Expire(dt), slots), Pick(Outstanding(slots), (c: Command) => c.timeout <= dt), -2)
  {
    if slots != [] {
      ExpiryWalk(dt, slots[1..]);
      var over := (c: Command) => c.timeout <= dt;
      var cs, o, notes := Outstanding(slots[1..]), slots[0], SweepNotes(Expire(dt), slots[1..]);
      if o.Some? {
        EndingTells(o.value, -2);
        assert ([o.value] + cs)[1..] == cs;
      } else {
        assert [] + cs == cs;
      }
      hide FinishNotes, TellAll;
      if o.Some? && over(o.value) {
        var n := FinishNotes(o.value, 0, -2)[0];
        assert FinishNotes(o.value, 0, -2) == [n];
        TellOneMore(n, o.value, notes, Pick(cs, over), -2);
      } else {
        assert [] + notes == notes && [] + Pick(cs, over) == Pick(cs, over);
      }
    }
  }

  /** The pass at the end of an update takes its time off every command that is out, ends with -2 those that have
      none left, and does nothing else. */
  lemma ExpiryRemoves(s: State, dt: int)
    ensures var t := SweepSlots(Expire(dt), s);
      && |t.slots| == |s.slots|
      && (forall i :: 0 <= i < |s.slots| ==>
            && (t.slots[i].Some? <==> s.slots[i].Some? && s.slots[i].value.timeout > dt)
            && (t.slots[i].Some? ==> t.slots[i].value == s.slots[i].value.(timeout := s.slots[i].value.timeout - dt)))
      && |s.notes| <= |t.notes| && t.notes[..|s.notes|] == s.notes
      && TellAll(t.notes[|s.notes|..], Pick(Outstanding(s.slots), (c: Command) => c.timeout <= dt), -2)
      && t == s.(slots := t.slots, notes := t.notes)
  {
    ExpiryWalk(dt, s.slots);
    assert SweepSlots(Expire(dt), s).notes[|s.notes|..] == SweepNotes(Expire(dt), s.slots);
    hide TellAll;
  }
}
