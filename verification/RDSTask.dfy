/** The scheduler over command objects that it updates in place (server/RDSTask.cpp), proved
    against the functions on values. */
module RDSTasks {
  import opened Basics
  import opened Commands
  import opened Scheduler

  /** A command object; what its subclasses add is in `kind`. */
  class CommandObject {
    const id: int
    const kind: Kind
    const flags: int
    const hasCallback: bool
    const hasListener: bool
    var coId: int
    var startTime: int
    var timeout: int
    var taskId: int
    var replies: int
    var enabled: bool

    ghost function View(): Command
      reads this
    {
      Command(id, kind, flags, coId, hasCallback, hasListener, startTime, timeout, taskId, replies, enabled)
    }

    constructor (id: int, kind: Kind, flags: int, coId: int, replies: int, hasCallback: bool, hasListener: bool)
      requires replies >= 1 && (kind.Position? ==> replies == 1)
      ensures Fresh(View())
      ensures View() == Command(id, kind, flags, coId, hasCallback, hasListener, 0, FIRST_TIMEOUT,
                                UNSENT_TASK_ID, replies, false)
    {
      this.id, this.kind, this.flags := id, kind, flags;
      this.coId, this.replies := coId, replies;
      this.hasCallback, this.hasListener := hasCallback, hasListener;
      startTime, timeout, taskId, enabled := 0, FIRST_TIMEOUT, UNSENT_TASK_ID, false;
    }

    /** The timers and counters part of Send; the frames it sends are modelled in Motors. */
    method Send() returns (rc: int)
      modifies this
      ensures rc < 0 <==> SendFails(old(View()))
      ensures View() == if rc < 0 then old(View()) else Sent(old(View()))
    {
      rc := 0;
      match kind
      case Setting =>
        timeout := 15000;
        enabled := coId == 0x01 || coId == 0x03;
      case Motor(data) =>
        if |data| > 0 {
          if |data| % UNIT_SIZE != 0 { return -1; }
          replies := |data| / UNIT_SIZE;
          coId := data[|data| - UNIT_SIZE + 3];
        }
      case Action =>
        timeout := 15000;
      case Position(distance) =>
        if distance == 0 { return; }
        var val := Abs(distance);
        if coId == 0x32 || coId == 0x34 {
          timeout := if val == MAZE_MARK then -1 else 600000;
        } else {
          timeout := if val == MAZE_MARK then 30000 else 60000;
        }
      case Emoji =>
      case Controller =>
    }

    /** Returns the replies still due, 0 when the command has come to its end and is deleted. */
    method Finish(result: int, error: int) returns (left: int, reports: seq<Note>)
      modifies this
      ensures reports == FinishNotes(old(View()), result, error)
      ensures left > 0 <==> !Ends(old(View()), error)
      ensures View() == Finished(old(View()), result)
    {
      var value := result;
      if kind.Setting? {
        match coId {
          case 0x01 | 0x03 => if result != 0 { enabled := false; }
          case 0x02 => if result == 0 { enabled := true; }
          case 0x04 | 0x06 => if result != 0 { enabled := true; }
          case _ =>
        }
        value := if coId == 0x05 then result else if enabled then 1 else 0;
      }
      reports := [];
      if hasListener && error == 0 {
        reports := reports + [Progress(id, value)];
      }
      replies := replies - 1;
      if replies > 0 && error == 0 {
        return replies, reports;
      }
      var channel := if hasCallback then ToCallback else if hasListener then Nobody else ToService;
      return 0, reports + [Final(id, value, error, channel)];
    }

    /** Called on a command that is out, for one that is due. */
    method Blocks(obj: CommandObject) returns (b: bool)
      ensures b == Blocked(View(), obj.View())
    {
      var equal := ClassId(kind) == ClassId(obj.kind);
      if equal && (kind.Setting? || kind.Controller?) {
        equal := coId == obj.coId;
      } else if equal && kind.Motor? {
        equal := |kind.data| == 0 && coId == obj.coId;
      }
      b := equal && flags / 128 % 2 == 1;
    }
  }

  lemma SendingKeepsKind(c: Command)
    requires !SendFails(c)
    ensures Sent(c).kind == c.kind && (c.kind.Setting? ==> Sent(c).coId == c.coId && Sent(c).replies == c.replies)
  {
  }

  lemma {:induction false} SweepNotesAppend(w: Sweep, a: seq<Option<Command>>, b: seq<Option<Command>>)
    ensures SweepNotes(w, a + b) == SweepNotes(w, a) + SweepNotes(w, b)
  {
    if a == [] {
      assert a + b == b;
    } else {
      assert (a + b)[1..] == a[1..] + b;
      SweepNotesAppend(w, a[1..], b);
    }
  }

  class RDSTask {
    const outList: array<CommandObject?>
    var inList: seq<CommandObject>
    var motorDisabled: bool
    var reports: seq<Note>
    /** The scheduler on values that the lists stand for, and every object it has ever held. */
    ghost var state: State
    ghost var Repr: set<CommandObject>

    ghost predicate Valid()
      reads this, outList, Repr
    {
      && outList.Length == TABLE && |state.slots| == TABLE && |inList| == |state.queue|
      && motorDisabled == state.motorDisabled && reports == state.notes
      && (forall k :: 0 <= k < |inList| ==>
            inList[k] in Repr && state.queue[k] == inList[k].View() && inList[k].taskId == UNSENT_TASK_ID)
      && (forall i :: 0 <= i < TABLE ==>
            if outList[i] == null then state.slots[i] == None
            else
              outList[i] in Repr && InTable(i) && state.slots[i] == Some(outList[i].View()) && outList[i].taskId == i)
      && (forall k, l :: 0 <= k < l < |inList| ==> inList[k] != inList[l])
    }

    /** The object is neither queued nor out. */
    ghost predicate Unlisted(obj: CommandObject)
      reads this, outList
    {
      obj in Repr && obj !in inList && forall i :: 0 <= i < outList.Length ==> outList[i] != obj
    }

    constructor ()
      ensures Valid() && state == Initial && fresh(outList) && Repr == {}
    {
      outList := new CommandObject?[TABLE](_ => null);
      inList, motorDisabled, reports := [], false, [];
      state, Repr := Initial, {};
    }

    method AddCommand(obj: CommandObject) returns (session: int)
      requires Valid() && obj !in Repr && Fresh(obj.View())
      modifies this
      ensures Valid() && state == Scheduler.AddCommand(old(state), obj.View())
      ensures session == if old(motorDisabled) then 0 else obj.id
    {
      if motorDisabled { return 0; }
      inList := inList + [obj];
      Repr := Repr + {obj};
      state := Scheduler.AddCommand(state, obj.View());
      return obj.id;
    }

    /** The look through the table for one due command: the last free index, else `ind` as it
        came, and whether something that is out holds the command back. */
    method LookThrough(obj: CommandObject, ind: nat) returns (slot: nat, blocked: bool)
      requires Valid()
      ensures var f := LastFree(state.slots, LAST_SLOT); slot == if f == 0 then ind else f
      ensures blocked == HeldBack(state.slots, obj.View())
    {
      slot, blocked := ind, false;
      for i := 1 to LAST_SLOT + 1
        invariant var f := LastFree(state.slots, i - 1); slot == if f == 0 then ind else f
        invariant blocked <==>
          exists j :: 1 <= j < i && state.slots[j].Some? && Blocked(state.slots[j].value, obj.View())
      {
        if outList[i] == null {
          slot := i;
        } else {
          var b := outList[i].Blocks(obj);
          blocked := blocked || b;
        }
      }
    }

    method ShortenDelay(k: nat, dt: int)
      requires Valid() && k < |inList|
      modifies this, inList[k]
      ensures Valid() && Repr == old(Repr) && inList == old(inList)
      ensures state == old(state).(queue := old(state).queue[k := Ticked(old(state).queue[k], dt)])
      ensures inList[k].startTime == old(inList[k].startTime) - dt
    {
      inList[k].startTime := inList[k].startTime - dt;
      state := state.(queue := state.queue[k := Ticked(state.queue[k], dt)]);
    }

    method TakeOut(k: nat) returns (obj: CommandObject)
      requires Valid() && k < |inList|
      modifies this
      ensures Valid() && Repr == old(Repr) && Unlisted(obj) && obj == old(inList)[k]
      ensures state == old(state).(queue := Without(old(state).queue, k))
      ensures obj.View() == old(state).queue[k]
    {
      obj := inList[k];
      inList := inList[..k] + inList[k + 1..];
      state := state.(queue := Without(state.queue, k));
    }

    /** Sends an object that is listed nowhere, under the number of slot ind. */
    method SendAs(obj: CommandObject, ind: nat) returns (rc: int)
      requires Valid() && Unlisted(obj) && InTable(ind)
      modifies obj, this`state, this`motorDisabled
      ensures Valid() && Repr == old(Repr) && Unlisted(obj)
      ensures var d := old(obj.View()).(taskId := ind);
        && (rc < 0 <==> SendFails(d))
        && obj.View() == (if rc < 0 then d else Sent(d))
        && state == (if rc < 0 then old(state) else MarkStarted(old(state), d))
    {
      hide Sent;
      obj.taskId := ind;
      ghost var d := obj.View();
      rc := obj.Send();
      if rc >= 0 {
        SendingKeepsKind(d);
        if obj.kind.Setting? && obj.coId == 0x01 && obj.replies > 0 { motorDisabled := false; }
        state := MarkStarted(state, d);
      }
    }

    /** Finishes an object that is listed nowhere. */
    method Close(obj: CommandObject, error: int)
      requires Valid() && Unlisted(obj)
      modifies obj, this`state, this`reports
      ensures Valid() && Repr == old(Repr)
      ensures state == Scheduler.Close(old(state), old(obj.View()), error)
    {
      ghost var c := obj.View();
      var _, notes := obj.Finish(0, error);
      reports := reports + notes;
      state := Scheduler.Close(state, c, error);
    }

    /** Files an object that is listed nowhere. */
    method Put(obj: CommandObject, ind: nat)
      requires Valid() && Unlisted(obj) && InTable(ind) && obj.taskId == ind
      modifies this`state, outList
      ensures Valid() && Repr == old(Repr)
      ensures state == Place(old(state), obj.View(), ind)
    {
      outList[ind] := obj;
      state := Place(state, obj.View(), ind);
    }

    method Launch(k: nat, ind: nat) returns (over: bool)
      requires Valid() && k < |inList| && InTable(ind)
      modifies this, outList, Repr
      ensures Valid() && Repr == old(Repr)
      ensures Scheduler.Launch(Scan(k, ind, false, old(state)), old(state).queue[k], ind) == Scan(k, ind, over, state)
    {
      var obj := TakeOut(k);
      var rc := SendAs(obj, ind);
      if rc < 0 {
        Close(obj, -4);
        return true;
      }
      if obj.timeout > 0 {
        Put(obj, ind);
      } else {
        Close(obj, 0);
      }
      return false;
    }

    /** The body of the loop in update. */
    method Visit(k0: nat, ind0: nat, dt: int) returns (k: nat, ind: nat, over: bool)
      requires Valid() && ScanOk(Scan(k0, ind0, false, state)) && k0 < |inList|
      modifies this, outList, Repr
      ensures Valid() && Repr == old(Repr)
      ensures Scan(k, ind, over, state) == ScanStep(Scan(k0, ind0, false, old(state)), dt)
    {
      ghost var p := Scan(k0, ind0, false, state);
      k, ind, over := k0, ind0, false;
      ShortenDelay(k, dt);
      if inList[k].startTime > 0 { return k + 1, ind, false; }
      var blocked;
      ind, blocked := LookThrough(inList[k], ind);
      if ind == 0 { return k + 1, ind, true; }
      if blocked { return k + 1, ind, false; }
      LaunchAfterDelay(p, Ticked(p.s.queue[k], dt), ind);
      over := Launch(k, ind);
    }

    method Update(dt: int) returns (rc: int)
      requires Valid()
      modifies this, outList, Repr
      ensures Valid() && Repr == old(Repr) && state == Scheduler.Update(old(state), dt) && rc == 0
    {
      ghost var p0 := Scan(0, 0, false, state);
      var k: nat, ind: nat, over := 0, 0, false;
      while k < |inList| && !over
        invariant Valid() && Repr == old(Repr)
        invariant ScanOk(Scan(k, ind, over, state)) && ScanAll(p0, dt) == ScanAll(Scan(k, ind, over, state), dt)
        decreases |inList| - k, !over
      {
        k, ind, over := Visit(k, ind, dt);
      }
      CheckTimeout(dt);
      return 0;
    }

    /** One slot of the timeout check. */
    method Expire(i: nat, dt: int)
      requires Valid() && InTable(i)
      modifies this`state, this`reports, outList, Repr
      ensures Valid() && Repr == old(Repr)
      ensures state == SweptAt(Sweep.Expire(dt), old(state), i)
    {
      var obj := outList[i];
      ghost var s1 := SweptAt(Sweep.Expire(dt), state, i);
      if obj != null {
        obj.timeout := obj.timeout - dt;
        if obj.timeout <= 0 {
          var _, notes := obj.Finish(0, -2);
          reports := reports + notes;
          outList[i] := null;
        }
      }
      state := s1;
    }

    method CheckTimeout(dt: int)
      requires Valid()
      modifies this`state, this`reports, outList, Repr
      ensures Valid() && Repr == old(Repr) && state == SweepSlots(Sweep.Expire(dt), old(state))
    {
      ghost var s0 := state;
      for i := 1 to LAST_SLOT + 1
        invariant Valid() && Repr == old(Repr) && PartSwept(Sweep.Expire(dt), s0, state, i)
      {
        SweepOne(Sweep.Expire(dt), s0, state, i);
        Expire(i, dt);
      }
      SweepDone(Sweep.Expire(dt), s0, state);
    }

    method Hits(f: Filter, obj: CommandObject) returns (b: bool)
      ensures b == Commands.Hits(f, obj.View())
    {
      match f
      case OfClass(cls) => b := ClassId(obj.kind) == cls;
      case OfSession(id) => b := obj.id == id;
      case Everything => b := true;
    }

    /** One slot of the cancelling loops. */
    method Kill(i: nat, f: Filter)
      requires Valid() && InTable(i)
      modifies this`state, this`reports, outList, Repr
      ensures Valid() && Repr == old(Repr)
      ensures state == SweptAt(Sweep.Kill(f), old(state), i)
    {
      var obj := outList[i];
      ghost var s1 := SweptAt(Sweep.Kill(f), state, i);
      if obj != null {
        var hit := Hits(f, obj);
        if hit {
          var _, notes := obj.Finish(0, -3);
          reports := reports + notes;
          outList[i] := null;
        }
      }
      state := s1;
    }

    /** The loop over the table that stopMotion and cancelCommand have in common. */
    method KillOut(f: Filter)
      requires Valid()
      modifies this`state, this`reports, outList, Repr
      ensures Valid() && Repr == old(Repr) && inList == old(inList) && state == SweepSlots(Sweep.Kill(f), old(state))
    {
      ghost var s0 := state;
      for i := 1 to LAST_SLOT + 1
        invariant Valid() && Repr == old(Repr) && PartSwept(Sweep.Kill(f), s0, state, i)
      {
        SweepOne(Sweep.Kill(f), s0, state, i);
        Kill(i, f);
      }
      SweepDone(Sweep.Kill(f), s0, state);
    }

    /** The body of the cancelling loop over the queue. */
    method Spare(k: nat, f: Filter) returns (next: nat)
      requires Valid() && k < |inList|
      modifies this, Repr
      ensures Valid() && Repr == old(Repr)
      ensures var c := old(state).queue[k];
        if Commands.Hits(f, c) then
          && next == k
          && state == old(state).(queue := Without(old(state).queue, k),
                                  notes := old(state).notes + FinishNotes(c, 0, -3))
        else next == k + 1 && state == old(state)
    {
      var hit := Hits(f, inList[k]);
      if hit {
        var obj := TakeOut(k);
        FinishQueued(obj);
        return k;
      }
      return k + 1;
    }

    /** The loop over the queue that stopMotion and cancelCommand have in common. */
    method KillQueued(f: Filter)
      requires Valid()
      modifies this, Repr
      ensures Valid() && Repr == old(Repr) && state == SweepQueue(f, old(state))
    {
      var k := 0;
      ghost var s0 := state;
      while k < |inList|
        invariant Valid() && Repr == old(Repr) && PartSpared(f, s0, state, k)
        decreases |inList| - k
      {
        SpareOne(f, s0, state, k);
        k := Spare(k, f);
      }
    }

    method FinishQueued(obj: CommandObject)
      requires Valid() && Unlisted(obj)
      modifies this`state, this`reports, obj
      ensures Valid() && Repr == old(Repr)
      ensures state == old(state).(notes := old(state).notes + FinishNotes(old(obj.View()), 0, -3))
    {
      ghost var c := obj.View();
      var _, notes := obj.Finish(0, -3);
      reports := reports + notes;
      state := state.(notes := state.notes + FinishNotes(c, 0, -3));
    }

    method StopMotion(cls: int)
      requires Valid()
      modifies this, outList, Repr
      ensures Valid() && Repr == old(Repr) && state == Scheduler.StopMotion(old(state), cls)
    {
      KillOut(OfClass(cls));
      KillQueued(OfClass(cls));
    }

    method CancelCommand(session: int)
      requires Valid()
      modifies this, outList, Repr
      ensures Valid() && Repr == old(Repr) && state == Scheduler.CancelCommand(old(state), session)
    {
      if session == 0 {
        inList := [];
        state := state.(queue := [], dropped := state.dropped + Ids(state.queue));
        KillOut(Everything);
      } else {
        KillOut(OfSession(session));
        KillQueued(OfSession(session));
      }
    }

    /** `cmd` is what the device table gives for a system control reply. */
    method OnCommandCompletion(task: int, result: int, flags: int, cmd: int)
      requires Valid()
      modifies this`state, this`reports, outList, Repr
      ensures Valid() && Repr == old(Repr) && state == OnCompletion(old(state), task, result, flags, cmd)
    {
      var i := 1;
      while i <= LAST_SLOT
        invariant 1 <= i <= LAST_SLOT + 1 && Valid() && state == old(state) && Repr == old(Repr)
        invariant FirstAnswering(state.slots, 1, task, flags, cmd) == FirstAnswering(state.slots, i, task, flags, cmd)
      {
        var obj := outList[i];
        if obj != null && ((flags % 16 == 0 && obj.taskId == task) || (flags % 16 == 1 && obj.coId == cmd)) {
          Answer(i, result);
          return;
        }
        i := i + 1;
      }
    }

    method Answer(i: nat, result: int)
      requires Valid() && InTable(i) && outList[i] != null
      modifies this`state, this`reports, outList, Repr
      ensures Valid() && Repr == old(Repr)
      ensures var c := old(state).slots[i].value;
        state == old(state).(slots := old(state).slots[i := if Ends(c, 0) then None else Some(Finished(c, result))],
                             notes := old(state).notes + FinishNotes(c, result, 0))
    {
      var obj := outList[i];
      ghost var c := obj.View();
      var left, notes := obj.Finish(result, 0);
      reports := reports + notes;
      if left <= 0 { outList[i] := null; }
      state := state.(slots := state.slots[i := if Ends(c, 0) then None else Some(Finished(c, result))],
                      notes := state.notes + FinishNotes(c, result, 0));
    }
  }

  lemma LaunchAfterDelay(p: Scan, c: Command, ind: nat)
    requires ScanOk(p) && p.k < |p.s.queue| && InTable(ind)
    ensures Launch(Scan(p.k, ind, false, p.s.(queue := p.s.queue[p.k := c])), c, ind) == Launch(p, c, ind)
  {
    assert Without(p.s.queue[p.k := c], p.k) == Without(p.s.queue, p.k);
  }

  /** Slot i alone is swept. */
  function SweptAt(w: Sweep, s: State, i: nat): State
    requires i < |s.slots|
  {
    s.(slots := s.slots[i := SlotAfter(w, s.slots[i])], notes := s.notes + SlotNotes(w, s.slots[i]))
  }

  /** The slots below i have been swept. */
  ghost predicate PartSwept(w: Sweep, s0: State, s: State, i: int) {
    && |s0.slots| == TABLE && |s.slots| == TABLE && 1 <= i <= LAST_SLOT + 1
    && (forall j :: 0 <= j < TABLE && !InTable(j) ==> s0.slots[j].None?)
    && (forall j :: 0 <= j < TABLE ==> s.slots[j] == if j < i then SlotAfter(w, s0.slots[j]) else s0.slots[j])
    && s.notes == s0.notes + SweepNotes(w, s0.slots[..i])
    && s == s0.(slots := s.slots, notes := s.notes)
  }

  lemma SweepOne(w: Sweep, s0: State, s: State, i: nat)
    requires PartSwept(w, s0, s, i) && i <= LAST_SLOT
    ensures PartSwept(w, s0, SweptAt(w, s, i), i + 1)
  {
    assert s0.slots[..i + 1] == s0.slots[..i] + [s0.slots[i]];
    SweepNotesAppend(w, s0.slots[..i], [s0.slots[i]]);
    assert [s0.slots[i]][1..] == [];
    assert SweepNotes(w, [s0.slots[i]]) == SlotNotes(w, s0.slots[i]) + [];
  }

  lemma SweepDone(w: Sweep, s0: State, s: State)
    requires PartSwept(w, s0, s, LAST_SLOT + 1)
    ensures s == SweepSlots(w, s0)
  {
    var n := LAST_SLOT + 1;
    assert s0.slots == s0.slots[..n] + s0.slots[n..];
    SweepNotesAppend(w, s0.slots[..n], s0.slots[n..]);
    NoSlotsNoNotes(w, s0.slots[n..]);
    assert s.slots == SweepSlots(w, s0).slots;
  }

  /** The queue below k has been gone through. */
  ghost predicate PartSpared(f: Filter, s0: State, s: State, k: int) {
    && 0 <= k <= |s.queue|
    && s == s0.(queue := s.queue, notes := s.notes)
    && Spared(f, s0.queue) == s.queue[..k] + Spared(f, s.queue[k..])
    && s0.notes + HitNotes(f, s0.queue) == s.notes + HitNotes(f, s.queue[k..])
  }

  lemma SpareHit(f: Filter, s0: State, s: State, k: int)
    requires PartSpared(f, s0, s, k) && k < |s.queue| && Hits(f, s.queue[k])
    ensures PartSpared(f, s0, s.(queue := Without(s.queue, k), notes := s.notes + FinishNotes(s.queue[k], 0, -3)), k)
  {
    var rest := s.queue[k + 1..];
    assert s.queue[k..][0] == s.queue[k] && s.queue[k..][1..] == rest;
    assert Without(s.queue, k)[..k] == s.queue[..k] && Without(s.queue, k)[k..] == rest;
    var notes := FinishNotes(s.queue[k], 0, -3);
    assert s.notes + (notes + HitNotes(f, rest)) == (s.notes + notes) + HitNotes(f, rest);
  }

  lemma SpareMiss(f: Filter, s0: State, s: State, k: int)
    requires PartSpared(f, s0, s, k) && k < |s.queue| && !Hits(f, s.queue[k])
    ensures PartSpared(f, s0, s, k + 1)
  {
    var rest := s.queue[k + 1..];
    assert s.queue[k..][0] == s.queue[k] && s.queue[k..][1..] == rest;
    assert s.queue[..k + 1] == s.queue[..k] + [s.queue[k]];
    assert s.queue[..k] + ([s.queue[k]] + Spared(f, rest)) == s.queue[..k + 1] + Spared(f, rest);
  }

  lemma SpareOne(f: Filter, s0: State, s: State, k: int)
    requires PartSpared(f, s0, s, k) && k < |s.queue|
    ensures if Hits(f, s.queue[k]) then
        PartSpared(f, s0, s.(queue := Without(s.queue, k), notes := s.notes + FinishNotes(s.queue[k], 0, -3)), k)
      else PartSpared(f, s0, s, k + 1)
  {
    if Hits(f, s.queue[k]) { SpareHit(f, s0, s, k); } else { SpareMiss(f, s0, s, k); }
  }
}
