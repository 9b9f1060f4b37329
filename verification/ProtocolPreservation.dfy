/** Each action of the system keeps the invariant, so it holds in every state of every run. */
module ProtocolPreservation {
  import opened Shuffle
  import opened Protocol
  import opened ProtocolInvariant

  // ---------------------------------------------------------------- what I/O on slot i changes

  lemma SendReachesSlot(N: nat, s: System, i: nat, step: int, b: Payload)
    requires Inv(N, s) && i < |s.slots| && s.slots[i].active && !s.phase.Final? && !s.phase.Stopped?
    ensures var c := s.slots[i].conn;
            SendTo(s, i, step, b) == WithConn(s.slots, i,
              if c.client.status == Playing then c.(down := c.down + [Label(s, i, step, b)]) else c)
  {
    assert SlotOk(s, i, s.slots[i]);
    SelfTenant(s.slots, i);
  }

  lemma ReceiveReadsSlot(N: nat, s: System, i: nat)
    requires Inv(N, s) && i < |s.slots| && s.slots[i].active && !s.phase.Final? && !s.phase.Stopped?
    ensures var c := s.slots[i].conn;
            && Receive(s.slots, s.slots[i].fd) == ReceiveOn(c)
            && (c.up != [] ==> Popped(s.slots, s.slots[i].fd) == WithConn(s.slots, i, c.(up := c.up[1..])))
  {
    assert SlotOk(s, i, s.slots[i]);
    SelfTenant(s.slots, i);
  }

  lemma CloseEndsSlot(N: nat, s: System, i: nat)
    requires Inv(N, s) && i < |s.slots| && s.slots[i].conn.open
    ensures var c := s.slots[i].conn;
            CloseFd(s.slots, s.slots[i].fd) == WithConn(s.slots, i, c.(open := false, closes := c.closes + 1))
  {
    assert SlotOk(s, i, s.slots[i]);
    SelfTenant(s.slots, i);
  }

  /** The server's own message on slot i advances that slot by one script step. */
  lemma SendAdvancesSlot(N: nat, s: System, i: nat, q: int)
    requires Inv(N, s) && i < |s.slots| && s.slots[i].active && !s.phase.Final? && !s.phase.Stopped?
    requires q in {1, 2, 3, 6, 7} && Expected(s.phase, i, s.slots[i].ready) == q
    ensures var x, t := s.slots[i], SendTo(s, i, q, DownBody(s.table, q));
            && |t| == |s.slots| && (forall j :: 0 <= j < |t| && j != i ==> t[j] == s.slots[j])
            && t[i] == x.(conn := t[i].conn) && t[i].conn.(down := x.conn.down) == x.conn
            && Aligned(t[i].conn, s.round - x.base, q + 1, s.table)
  {
    hide Aligned, Informed;
    assert SlotOk(s, i, s.slots[i]);
    SendReachesSlot(N, s, i, q, DownBody(s.table, q));
    ServerSends(s.slots[i].conn, s.round - s.slots[i].base, q, s.table);
  }

  /** A message received on slot i is the one its client sent for that step. */
  lemma ReceiveAdvancesSlot(N: nat, s: System, i: nat, q: int)
    requires Inv(N, s) && i < |s.slots| && s.slots[i].active && !s.phase.Final? && !s.phase.Stopped?
    requires q in {0, 4, 5, 8} && Expected(s.phase, i, s.slots[i].ready) == q
    requires s.slots[i].conn.up != []
    ensures var x := s.slots[i]; var c := x.conn.(up := x.conn.up[1..]);
            && Receive(s.slots, x.fd) == Got(UpMsg(x.conn.client, s.round - x.base, q))
            && Popped(s.slots, x.fd) == WithConn(s.slots, i, c)
            && ((q == 8 && c.client.status == Quit) || Aligned(c, s.round - x.base, q + 1, s.table))
  {
    hide Aligned, Informed;
    assert SlotOk(s, i, s.slots[i]);
    ReceiveReadsSlot(N, s, i);
    ServerReceives(s.slots[i].conn, s.round - s.slots[i].base, q, s.table);
  }

  // ---------------------------------------------------------------- the server's steps

  lemma ReadKeeps(N: nat, s: System)
    requires Inv(N, s) && s.phase.Read? && CanAdvance(s)
    ensures Inv(N, StepRead(s))
  {
    hide Aligned, Informed, CloseFd, Popped, Receive;
    var i, t := s.phase.i, StepRead(s);
    if i < |s.slots| {
      var x := s.slots[i];
      assert SlotOk(s, i, x);
      if s.closing {
        CloseEndsSlot(N, s, i);
      } else if x.active && !x.ready && x.fd in s.phase.readable {
        ReceiveReadsSlot(N, s, i);
        if x.conn.up != [] { ReceiveAdvancesSlot(N, s, i, 0); }
      }
    }
    forall j | 0 <= j < |t.slots| ensures SlotOk(t, j, t.slots[j]) {
      assert SlotOk(s, j, s.slots[j]);
    }
  }

  lemma StartKeeps(N: nat, s: System)
    requires Inv(N, s) && s.phase.Start?
    ensures Inv(N, StepStart(s))
  {
    hide Aligned, Informed, SendTo;
    var i, t := s.phase.i, StepStart(s);
    if i < |s.slots| && s.slots[i].active { SendAdvancesSlot(N, s, i, 1); }
    forall j | 0 <= j < |t.slots| ensures SlotOk(t, j, t.slots[j]) {
      assert SlotOk(s, j, s.slots[j]);
    }
    assert SomeActive(t.slots) by {
      var a :| 0 <= a < |s.slots| && s.slots[a].active;
      assert t.slots[a].active;
    }
  }

  lemma DealKeeps(N: nat, s: System)
    requires Inv(N, s) && s.phase.Deal?
    ensures Inv(N, StepDeal(s))
  {
    hide Aligned, Informed, SendTo;
    var i, t := s.phase.i, StepDeal(s);
    if i < |s.slots| && s.slots[i].active { SendAdvancesSlot(N, s, i, 2 + s.phase.part); }
    forall j | 0 <= j < |t.slots| ensures SlotOk(t, j, t.slots[j]) {
      assert SlotOk(s, j, s.slots[j]);
    }
    assert SomeActive(t.slots) by {
      var a :| 0 <= a < |s.slots| && s.slots[a].active;
      assert t.slots[a].active;
    }
  }

  lemma GatherKeeps(N: nat, s: System)
    requires Inv(N, s) && s.phase.Gather? && CanAdvance(s) && s.phase.i < |s.slots|
    ensures Inv(N, StepGather(s))
  {
    hide Aligned, Informed, CloseFd, Popped, Receive;
    var i, t := s.phase.i, StepGather(s);
    var x := s.slots[i];
    assert SlotOk(s, i, x);
    if s.closing {
      CloseEndsSlot(N, s, i);
    } else if x.active {
      ReceiveReadsSlot(N, s, i);
      if x.conn.up != [] { ReceiveAdvancesSlot(N, s, i, 4 + s.phase.part); }
    }
    forall j | 0 <= j < |t.slots| ensures SlotOk(t, j, t.slots[j]) {
      assert SlotOk(s, j, s.slots[j]);
    }
  }

  /** Once every answer is in, nothing under way depends on the extremes of the round. */
  lemma ExtremesNotUnderWay(c: Conn, m: int, t: Table, best: int, worst: int)
    requires Aligned(c, m, 6, t) && Informed(c.client, m, t)
    ensures var u := t.(best := best, worst := worst); Aligned(c, m, 6, u) && Informed(c.client, m, u)
  {
  }

  lemma GatherEndKeeps(N: nat, s: System)
    requires Inv(N, s) && s.phase.Gather? && CanAdvance(s) && s.phase.i >= |s.slots|
    ensures Inv(N, StepGather(s))
  {
    hide Aligned, Informed;
    var t := StepGather(s);
    forall j | 0 <= j < |t.slots| ensures SlotOk(t, j, t.slots[j]) {
      assert SlotOk(s, j, s.slots[j]);
      if s.slots[j].active {
        ExtremesNotUnderWay(s.slots[j].conn, s.round - s.slots[j].base, s.table, t.table.best, t.table.worst);
      }
    }
  }

  /** The two extremes depend on the server's own table only, not on what is under way. */
  lemma {:induction false} ExtremesIgnoreConnections(a: seq<Slot>, b: seq<Slot>)
    requires |a| == |b| && forall j :: 0 <= j < |a| ==> a[j].(conn := b[j].conn) == b[j]
    ensures Best(a) == Best(b) && Worst(a) == Worst(b)
  {
    if a != [] {
      ExtremesIgnoreConnections(a[..|a| - 1], b[..|b| - 1]);
      assert a[|a| - 1].(conn := b[|a| - 1].conn) == b[|a| - 1];
    }
  }

  lemma ResultsKeeps(N: nat, s: System)
    requires Inv(N, s) && s.phase.Results?
    ensures Inv(N, StepResults(s))
  {
    hide Aligned, Informed, Best, Worst, SendTo;
    var i, t := s.phase.i, StepResults(s);
    if i < |s.slots| && s.slots[i].active { SendAdvancesSlot(N, s, i, 6 + s.phase.part); }
    ExtremesIgnoreConnections(s.slots, t.slots);
    forall j | 0 <= j < |t.slots| ensures SlotOk(t, j, t.slots[j]) {
      assert SlotOk(s, j, s.slots[j]);
    }
  }

  lemma ChoicesKeeps(N: nat, s: System)
    requires Inv(N, s) && s.phase.Choices? && CanAdvance(s) && s.phase.i < |s.slots|
    ensures Inv(N, StepChoices(s))
  {
    hide Aligned, Informed, PhaseOk, CloseFd, Popped, Receive;
    var i, t := s.phase.i, StepChoices(s);
    var x := s.slots[i];
    assert SlotOk(s, i, x);
    if s.closing {
      CloseEndsSlot(N, s, i);
    } else if x.active {
      ReceiveReadsSlot(N, s, i);
      if x.conn.up != [] { ReceiveAdvancesSlot(N, s, i, 8); }
    }
    forall j | 0 <= j < |t.slots| ensures SlotOk(t, j, t.slots[j]) {
      assert SlotOk(s, j, s.slots[j]);
    }
    ChoicesCount(s, t);
  }

  lemma ChoicesCount(s: System, t: System)
    requires s.phase.Choices? && CanAdvance(s) && s.phase.i < |s.slots| && PhaseOk(s) && t == StepChoices(s)
    requires forall j :: 0 <= j < |s.slots| && j != s.phase.i ==> t.slots[j] == s.slots[j]
    requires t.slots[s.phase.i].active ==> s.slots[s.phase.i].active
    requires s.closing ==> !s.slots[s.phase.i].active
    ensures PhaseOk(t)
  {
  }

  lemma ChoicesEndKeeps(N: nat, s: System)
    requires Inv(N, s) && s.phase.Choices? && CanAdvance(s) && s.phase.i >= |s.slots|
    ensures Inv(N, StepChoices(s))
  {
    hide Aligned, Informed;
    var t := StepChoices(s);
    forall j | 0 <= j < |t.slots| ensures SlotOk(t, j, t.slots[j]) {
      assert SlotOk(s, j, s.slots[j]);
      if s.replays > 0 && s.slots[j].active {
        NextRound(s.slots[j].conn, s.round - s.slots[j].base, s.table);
      }
    }
    if s.replays > 0 {
      var a :| 0 <= a < |s.slots| && s.slots[a].active;
      assert t.slots[a].active;
    }
  }

  lemma FinalKeeps(N: nat, s: System)
    requires Inv(N, s) && s.phase.Final?
    ensures Inv(N, StepFinal(s))
  {
    hide Aligned, Informed;
    var i, t := s.phase.i, StepFinal(s);
    if i < |s.slots| && s.slots[i].active {
      assert SlotOk(s, i, s.slots[i]);
      CloseEndsSlot(N, s, i);
    }
    forall j | 0 <= j < |t.slots| ensures SlotOk(t, j, t.slots[j]) {
      assert SlotOk(s, j, s.slots[j]);
    }
  }

  lemma ServerKeeps(N: nat, s: System)
    requires Inv(N, s) && CanAdvance(s)
    ensures Inv(N, Advanced(s))
  {
    match s.phase
    case Read(_, _, _) => ReadKeeps(N, s);
    case Start(_) => StartKeeps(N, s);
    case Deal(_, _) => DealKeeps(N, s);
    case Gather(i, _) => if i < |s.slots| { GatherKeeps(N, s); } else { GatherEndKeeps(N, s); }
    case Results(_, _) => ResultsKeeps(N, s);
    case Choices(i) => if i < |s.slots| { ChoicesKeeps(N, s); } else { ChoicesEndKeeps(N, s); }
    case Final(_) => FinalKeeps(N, s);
  }

  // ---------------------------------------------------------------- arrivals, select, the draw, clients

  lemma NewSlotOk(s: System, fd: int, k: Client, up: seq<Message>, p: Phase)
    requires Newcomer(k, up) && (p.Welcome? || p.Read?) && !s.closing
    ensures SlotOk(s.(phase := p), |s.slots|, NewSlot(fd, s.round, k, up))
  {
  }

  lemma ArrivalKeeps(N: nat, s: System, a: Action)
    requires Inv(N, s) && Enabled(N, s, a) && (a.WelcomeNew? || a.AdmitNew? || a.AdmitNone?)
    ensures Inv(N, Next(N, s, a))
  {
    hide Aligned, Informed;
    var t := Next(N, s, a);
    if !a.AdmitNone? { NewSlotOk(s, a.fd, a.k, a.up, t.phase); }
    forall j | 0 <= j < |t.slots| ensures SlotOk(t, j, t.slots[j]) {
      if j < |s.slots| { assert SlotOk(s, j, s.slots[j]); }
    }
  }

  lemma SelectKeeps(N: nat, s: System)
    requires Inv(N, s) && s.phase == Select
    ensures Inv(N, Next(N, s, SelectReturns))
  {
    hide Aligned, Informed;
    var readable, t := ReadableFds(s.slots), Next(N, s, SelectReturns);
    forall f | f in readable ensures !Fresh(s.slots, f) {
      var j :| 0 <= j < |s.slots| && s.slots[j].active && s.slots[j].fd == f;
      assert SlotOk(s, j, s.slots[j]);
    }
    forall j | 0 <= j < |s.slots| && s.slots[j].active && s.slots[j].fd in readable
      ensures !ReceiveOn(s.slots[j].conn).Blocked?
    {
      var k :| 0 <= k < |s.slots| && s.slots[k].active && s.slots[k].fd == s.slots[j].fd
               && !Receive(s.slots, s.slots[k].fd).Blocked?;
      assert SlotOk(s, j, s.slots[j]);
      SelfTenant(s.slots, j);
    }
    forall j | 0 <= j < |t.slots| ensures SlotOk(t, j, t.slots[j]) {
      assert SlotOk(s, j, s.slots[j]);
    }
  }

  lemma QuietKeeps(N: nat, s: System, a: Action)
    requires Inv(N, s) && Enabled(N, s, a) && (a.WelcomeDone? || a.SelectFails?)
    ensures Inv(N, Next(N, s, a))
  {
    hide Aligned, Informed;
    var t := Next(N, s, a);
    if a.WelcomeDone? { assert t.slots[0].active; }
    forall j | 0 <= j < |t.slots| ensures SlotOk(t, j, t.slots[j]) {
      assert SlotOk(s, j, s.slots[j]);
    }
  }

  lemma DrawKeeps(N: nat, s: System, shape: int, draws: seq<nat>)
    requires Inv(N, s) && Enabled(N, s, DrawRound(shape, draws))
    ensures Inv(N, Next(N, s, DrawRound(shape, draws)))
  {
    hide Aligned, Informed, IsDraws, Mix, IsPermutation, AllReady;
    ShuffleIsBijection(16);
    var t := Next(N, s, DrawRound(shape, draws));
    forall j | 0 <= j < |t.slots| ensures SlotOk(t, j, t.slots[j]) {
      assert SlotOk(s, j, s.slots[j]);
      if s.slots[j].active {
        DrawNotUnderWay(s.slots[j].conn, s.round - s.slots[j].base, s.table, shape, t.table.order);
      }
    }
  }

  /** Before the grid is dealt, nothing under way depends on it. */
  lemma DrawNotUnderWay(c: Conn, m: int, t: Table, shape: int, order: seq<int>)
    requires Aligned(c, m, 2, t) && Informed(c.client, m, t)
    ensures var u := t.(shape := shape, order := order); Aligned(c, m, 2, u) && Informed(c.client, m, u)
  {
  }

  lemma ClientKeepsSlot(N: nat, s: System, i: nat, act: ClientAct)
    requires Inv(N, s) && Enabled(N, s, ClientStep(i, act))
    ensures var x := s.slots[i]; var y := x.(conn := Act(x.conn, act));
            && SlotOk(s, i, y) && y.conn.fd == x.conn.fd && y.conn.open == x.conn.open
            && (!ReceiveOn(x.conn).Blocked? ==> !ReceiveOn(y.conn).Blocked?)
  {
    hide Aligned, Informed;
    var x := s.slots[i];
    assert SlotOk(s, i, x);
    ClientActs(x.conn, act, s.round - x.base, Expected(s.phase, i, x.ready), s.table);
  }

  lemma ClientKeeps(N: nat, s: System, i: nat, act: ClientAct)
    requires Inv(N, s) && Enabled(N, s, ClientStep(i, act))
    ensures Inv(N, Next(N, s, ClientStep(i, act)))
  {
    hide Aligned, Informed, Best, Worst, Act, CanAct, PhaseOk, ReceiveOn;
    var t := Next(N, s, ClientStep(i, act));
    ClientKeepsSlot(N, s, i, act);
    ExtremesIgnoreConnections(s.slots, t.slots);
    forall j | 0 <= j < |t.slots| ensures SlotOk(t, j, t.slots[j]) {
      assert SlotOk(s, j, s.slots[j]);
    }
    ClientKeepsPhase(s, t, i);
  }

  lemma ClientKeepsPhase(s: System, t: System, i: nat)
    requires PhaseOk(s) && i < |s.slots| == |t.slots| && t == s.(slots := WithConn(s.slots, i, t.slots[i].conn))
    requires Best(s.slots) == Best(t.slots) && Worst(s.slots) == Worst(t.slots)
    requires t.slots[i].conn.open == s.slots[i].conn.open && t.slots[i].conn.fd == s.slots[i].conn.fd
    requires !ReceiveOn(s.slots[i].conn).Blocked? ==> !ReceiveOn(t.slots[i].conn).Blocked?
    ensures PhaseOk(t)
  {
    hide Best, Worst, ReceiveOn;
    if SomeActive(s.slots) {
      var a :| 0 <= a < |s.slots| && s.slots[a].active;
      assert t.slots[a].active;
    }
    assert forall j :: 0 <= j < |s.slots| ==> s.slots[j].active == t.slots[j].active;
    if s.phase.Admit? {
      forall f | f in s.phase.readable ensures !Fresh(t.slots, f) {
        var j :| 0 <= j < |s.slots| && s.slots[j].conn.open && s.slots[j].conn.fd == f;
        assert t.slots[j].conn.open && t.slots[j].conn.fd == f;
      }
    }
  }

  lemma NextKeeps(N: nat, s: System, a: Action)
    requires Inv(N, s) && Enabled(N, s, a)
    ensures Inv(N, Next(N, s, a))
  {
    match a
    case SelectReturns => SelectKeeps(N, s);
    case DrawRound(shape, draws) => DrawKeeps(N, s, shape, draws);
    case Server => ServerKeeps(N, s);
    case ClientStep(j, act) => ClientKeeps(N, s, j, act);
    case WelcomeDone => QuietKeeps(N, s, a);
    case SelectFails => QuietKeeps(N, s, a);
    case _ => ArrivalKeeps(N, s, a);
  }

  /** Main result: the invariant holds in every state of every run, for any number of clients. */
  lemma {:induction false} RunsKeepInvariant(N: nat, run: seq<System>, i: nat)
    requires IsRun(N, run) && i < |run|
    ensures Inv(N, run[i])
  {
    if i > 0 {
      RunsKeepInvariant(N, run, i - 1);
      assert Step(N, run[i - 1], run[i - 1 + 1]);
      var a :| Enabled(N, run[i - 1], a) && Next(N, run[i - 1], a) == run[i];
      NextKeeps(N, run[i - 1], a);
    }
  }

  /** The action between two states of a run, with what is known before it. */
  lemma StepOf(N: nat, run: seq<System>, i: nat) returns (a: Action)
    requires IsRun(N, run) && i + 1 < |run|
    ensures Enabled(N, run[i], a) && Next(N, run[i], a) == run[i + 1] && Inv(N, run[i])
  {
    hide Inv, Enabled, Next;
    RunsKeepInvariant(N, run, i);
    assert Step(N, run[i], run[i + 1]);
    a :| Enabled(N, run[i], a) && Next(N, run[i], a) == run[i + 1];
  }
}
