/**
  The round protocol of serveur.c and client.c as an interleaved transition system.

  One server talks to any number of clients over a FIFO channel each way. A round has nine script steps,
  seen from both ends of a connection:

    step  0         1        2         3        4          5       6       7        8
          ready >   < start  < shape   < order  correct >  time >  < best  < worst  choice >

  (`>` is a send by the client, `<` a send by the server). A message carries the round and the step it was
  sent for. No step of the system looks at these two labels: they are there to say that each receive gets
  the message that was meant for it.

  I/O goes by descriptor number. `Tenant` finds the connection that holds a number at that moment, so a
  stale number would reach the wrong connection or none.
*/
module Protocol {
  import opened Shuffle
  import opened Board

  datatype Payload = Byte(c: char) | Word(n: int) | Order(g: seq<int>)

  datatype Message = Message(round: int, step: int, body: Payload)

  function WordOf(b: Payload): int { if b.Word? then b.n else 0 }

  function OrderOf(b: Payload): seq<int> { if b.Order? then b.g else [] }

  /** Quit: answered 'n' and closed. Dead: vanished. Lost: gave up because the start byte was not '1'. */
  datatype Status = Playing | Quit | Dead | Lost

  datatype Client = Client(status: Status, round: int, step: int,
                           shape: int, order: seq<int>, position: int,
                           correct: bool, time: int, best: int, worst: int)

  /** A connection as the operating system sees it, with the player at the far end. */
  datatype Conn = Conn(fd: int, open: bool, closes: nat, client: Client, up: seq<Message>, down: seq<Message>)

  /**
    One slot of the server's table: `fd` is clients[i], `active` is clients_actifs[i], `ready` is
    client_pret[i], and `time`, `correct` are temps[i], reponses_correctes[i]. `base` is the server's round
    in which the slot was filled, which is round 0 of that client.
  */
  datatype Slot = Slot(fd: int, active: bool, ready: bool, time: int, correct: bool, base: int, conn: Conn)

  /** What the server drew and computed in the current round. */
  datatype Table = Table(shape: int, order: seq<int>, best: int, worst: int)

  /**
    Where the server is. `i` is the slot its loop has reached and `part` which of the two messages of that
    slot comes next; `readable` is what select() reported and `before` the number of slots at that moment.
  */
  datatype Phase =
    | Welcome
    | Select
    | Admit(readable: set<int>)
    | Read(i: nat, readable: set<int>, before: nat)
    | Start(i: nat)
    | Draw
    | Deal(i: nat, part: nat)
    | Gather(i: nat, part: nat)
    | Results(i: nat, part: nat)
    | Choices(i: nat)
    | Final(i: nat)
    | Stopped

  /** `closing`: the slot the loop has reached was just marked inactive and its close() comes next. */
  datatype System = System(phase: Phase, closing: bool, round: int, table: Table, replays: nat, slots: seq<Slot>)

  // ---------------------------------------------------------------- the operating system

  /** The connection that holds descriptor `fd`, or -1. */
  function Tenant(slots: seq<Slot>, fd: int): (t: int)
    ensures -1 <= t < |slots|
    ensures t >= 0 ==> slots[t].conn.open && slots[t].conn.fd == fd
    ensures t == -1 ==> forall j :: 0 <= j < |slots| ==> !(slots[j].conn.open && slots[j].conn.fd == fd)
  {
    if slots == [] then -1
    else
      var k := |slots| - 1;
      if slots[k].conn.open && slots[k].conn.fd == fd then k else Tenant(slots[..k], fd)
  }

  function WithConn(slots: seq<Slot>, t: nat, c: Conn): (r: seq<Slot>)
    requires t < |slots|
    ensures |r| == |slots|
  {
    slots[t := slots[t].(conn := c)]
  }

  function CloseFd(slots: seq<Slot>, fd: int): (r: seq<Slot>)
    ensures |r| == |slots|
  {
    var t := Tenant(slots, fd);
    if t < 0 then slots
    else WithConn(slots, t, slots[t].conn.(open := false, closes := slots[t].conn.closes + 1))
  }

  datatype Received = Blocked | Eof | Got(m: Message)

  function ReceiveOn(c: Conn): Received {
    if c.up != [] then Got(c.up[0])
    else if c.client.status == Playing then Blocked
    else Eof
  }

  /** What recv() on `fd` meets: a message, the end of the stream (or an error), or a wait. */
  function Receive(slots: seq<Slot>, fd: int): Received {
    var t := Tenant(slots, fd);
    if t < 0 then Eof else ReceiveOn(slots[t].conn)
  }

  /** The message that recv() returned leaves its channel. */
  function Popped(slots: seq<Slot>, fd: int): (r: seq<Slot>)
    ensures |r| == |slots|
  {
    var t := Tenant(slots, fd);
    if t < 0 || slots[t].conn.up == [] then slots
    else WithConn(slots, t, slots[t].conn.(up := slots[t].conn.up[1..]))
  }

  /** send() on `fd`; bytes for a client that has gone are dropped. */
  function Sent(slots: seq<Slot>, fd: int, m: Message): (r: seq<Slot>)
    ensures |r| == |slots|
  {
    var t := Tenant(slots, fd);
    if t < 0 || slots[t].conn.client.status != Playing then slots
    else WithConn(slots, t, slots[t].conn.(down := slots[t].conn.down + [m]))
  }

  /** select(): the descriptors of active slots on which recv() would not wait. */
  function ReadableFds(slots: seq<Slot>): set<int> {
    set j | 0 <= j < |slots| && slots[j].active && !Receive(slots, slots[j].fd).Blocked? :: slots[j].fd
  }

  // ---------------------------------------------------------------- the clients

  datatype ClientAct =
    | SendNext
    | Play(button: int, time: int)
    | Choose(again: bool)
    | ReceiveNext
    | Die(keep: nat)

  predicate CanAct(c: Conn, a: ClientAct) {
    && c.open && c.client.status == Playing
    && match a
       case SendNext => c.client.step == 0 || c.client.step == 5
       case Play(_, _) => c.client.step == 4
       case Choose(_) => c.client.step == 8
       case ReceiveNext => c.client.step in {1, 2, 3, 6, 7} && c.down != []
       case Die(keep) => keep <= |c.up|
  }

  /**
    One step of client.c. `Play` is the chronometer loop: the button it saw (0 for none) and the final time.
    `Die` is a crash; unread bytes the client had sent may be lost with it.
  */
  function Act(c: Conn, a: ClientAct): Conn
    requires CanAct(c, a)
  {
    var k := c.client;
    match a
    case SendNext =>
      if k.step == 0
      then c.(client := k.(step := 1), up := c.up + [Message(k.round, 0, Byte('1'))])
      else c.(client := k.(step := 6), up := c.up + [Message(k.round, 5, Word(k.time))])
    case Play(button, time) =>
      var ok := button == k.position;
      c.(client := k.(step := 5, correct := ok, time := time),
         up := c.up + [Message(k.round, 4, Word(if ok then 1 else 0))])
    case Choose(again) =>
      c.(client := k.(step := 0, round := k.round + 1, status := if again then Playing else Quit),
         up := c.up + [Message(k.round, 8, Byte(if again then 'o' else 'n'))])
    case ReceiveNext =>
      c.(client := Understood(k, c.down[0].body), down := c.down[1..])
    case Die(keep) =>
      c.(client := k.(status := Dead), up := c.up[..keep], down := [])
  }

  /** What the client does with the next message from the server. */
  function Understood(k: Client, b: Payload): Client {
    if k.step == 1 then (if b == Byte('1') then k.(step := 2) else k.(status := Lost))
    else if k.step == 2 then k.(step := 3, shape := WordOf(b))
    else if k.step == 3 then k.(step := 4, order := OrderOf(b), position := PositionOf(k.shape, OrderOf(b)))
    else if k.step == 6 then k.(step := 7, best := WordOf(b))
    else k.(step := 8, worst := WordOf(b))
  }

  /** A client at the moment its connection is accepted: it may already have sent its ready byte, or died. */
  predicate Newcomer(k: Client, up: seq<Message>) {
    && k.round == 0 && (k.step == 0 || k.step == 1)
    && var sent := if k.step == 1 then [Message(0, 0, Byte('1'))] else [];
       || (k.status == Playing && up == sent)
       || (k.status == Dead && up <= sent)
  }

  // ---------------------------------------------------------------- the server

  predicate Fresh(slots: seq<Slot>, fd: int) {
    forall j :: 0 <= j < |slots| ==> !(slots[j].conn.open && slots[j].conn.fd == fd)
  }

  function NewSlot(fd: int, round: int, k: Client, up: seq<Message>): Slot {
    Slot(fd, true, false, 100, false, round, Conn(fd, true, 0, k, up, []))
  }

  predicate SomeActive(slots: seq<Slot>) {
    exists j :: 0 <= j < |slots| && slots[j].active
  }

  predicate AllReady(slots: seq<Slot>) {
    forall j :: 0 <= j < |slots| && slots[j].active ==> slots[j].ready
  }

  /** meilleur_temps: the least time below 100 among active slots with a correct answer, or 100. */
  function Best(slots: seq<Slot>): (b: int)
    ensures b <= 100
  {
    if slots == [] then 100
    else
      var x, b := slots[|slots| - 1], Best(slots[..|slots| - 1]);
      if x.active && x.correct && x.time < b then x.time else b
  }

  /** pire_temps: the greatest time among active slots, or 0. */
  function Worst(slots: seq<Slot>): (w: int)
    ensures w >= 0
  {
    if slots == [] then 0
    else
      var x, w := slots[|slots| - 1], Worst(slots[..|slots| - 1]);
      if x.active && x.time > w then x.time else w
  }

  function CleanScores(slots: seq<Slot>): (r: seq<Slot>)
    ensures |r| == |slots|
  {
    seq(|slots|, j requires 0 <= j < |slots| => slots[j].(time := 100, correct := false))
  }

  function NotReady(slots: seq<Slot>): (r: seq<Slot>)
    ensures |r| == |slots|
  {
    seq(|slots|, j requires 0 <= j < |slots| => slots[j].(ready := false))
  }

  /** A message of the server to slot i, labelled with that client's own round number. */
  function Label(s: System, i: nat, step: int, b: Payload): Message
    requires i < |s.slots|
  {
    Message(s.round - s.slots[i].base, step, b)
  }

  function SendTo(s: System, i: nat, step: int, b: Payload): (r: seq<Slot>)
    requires i < |s.slots|
    ensures |r| == |s.slots|
  {
    Sent(s.slots, s.slots[i].fd, Label(s, i, step, b))
  }

  /** The slot whose loop turn it is loses its place; close() follows. */
  function Dropped(s: System, i: nat, slots: seq<Slot>): System
    requires i < |slots|
  {
    s.(slots := slots[i := slots[i].(active := false)], closing := true)
  }

  function Closed(s: System, i: nat, next: Phase): System
    requires i < |s.slots|
  {
    s.(slots := CloseFd(s.slots, s.slots[i].fd), closing := false, phase := next)
  }

  /** The reading loop of the barrier and the test that ends one turn of it. */
  function StepRead(s: System): System
    requires s.phase.Read?
  {
    var i, next := s.phase.i, Read(s.phase.i + 1, s.phase.readable, s.phase.before);
    if i >= |s.slots| then
      if !SomeActive(s.slots) then s.(phase := Final(0))
      else if AllReady(s.slots) then s.(phase := Start(0))
      else s.(phase := Select)
    else
      var x := s.slots[i];
      if s.closing then Closed(s, i, next)
      else if x.active && !x.ready && x.fd in s.phase.readable then
        match Receive(s.slots, x.fd)
        case Got(m) =>
          var slots := Popped(s.slots, x.fd);
          s.(slots := if m.body == Byte('1') then slots[i := slots[i].(ready := true)] else slots, phase := next)
        case _ => Dropped(s, i, s.slots)
      else s.(phase := next)
  }

  function StepStart(s: System): System
    requires s.phase.Start?
  {
    var i := s.phase.i;
    if i >= |s.slots| then s.(phase := Draw)
    else s.(slots := if s.slots[i].active then SendTo(s, i, 1, Byte('1')) else s.slots, phase := Start(i + 1))
  }

  function StepDeal(s: System): System
    requires s.phase.Deal?
  {
    var i := s.phase.i;
    if i >= |s.slots| then s.(slots := CleanScores(s.slots), phase := Gather(0, 0))
    else if !s.slots[i].active then s.(phase := Deal(i + 1, 0))
    else if s.phase.part == 0 then s.(slots := SendTo(s, i, 2, Word(s.table.shape)), phase := Deal(i, 1))
    else s.(slots := SendTo(s, i, 3, Order(s.table.order)), phase := Deal(i + 1, 0))
  }

  function StepGather(s: System): System
    requires s.phase.Gather?
  {
    var i := s.phase.i;
    if i >= |s.slots| then
      s.(table := s.table.(best := Best(s.slots), worst := Worst(s.slots)), phase := Results(0, 0))
    else
      var x := s.slots[i];
      if s.closing then Closed(s, i, Gather(i + 1, 0))
      else if !x.active then s.(phase := Gather(i + 1, 0))
      else
        match Receive(s.slots, x.fd)
        case Got(m) =>
          var slots := Popped(s.slots, x.fd);
          if s.phase.part == 0
          then s.(slots := slots[i := slots[i].(correct := m.body == Word(1))], phase := Gather(i, 1))
          else s.(slots := slots[i := slots[i].(time := WordOf(m.body))], phase := Gather(i + 1, 0))
        case _ =>
          if s.phase.part == 0 then Dropped(s, i, s.slots)
          else Dropped(s, i, s.slots[i := x.(time := 100, correct := false)])
  }

  function StepResults(s: System): System
    requires s.phase.Results?
  {
    var i := s.phase.i;
    if i >= |s.slots| then
      if SomeActive(s.slots) then s.(phase := Choices(0), replays := 0) else s.(phase := Final(0))
    else if !s.slots[i].active then s.(phase := Results(i + 1, 0))
    else if s.phase.part == 0 then s.(slots := SendTo(s, i, 6, Word(s.table.best)), phase := Results(i, 1))
    else s.(slots := SendTo(s, i, 7, Word(s.table.worst)), phase := Results(i + 1, 0))
  }

  function StepChoices(s: System): System
    requires s.phase.Choices?
  {
    var i := s.phase.i;
    if i >= |s.slots| then
      if s.replays > 0 then s.(slots := NotReady(s.slots), round := s.round + 1, phase := Select)
      else s.(phase := Final(0))
    else
      var x := s.slots[i];
      if s.closing then Closed(s, i, Choices(i + 1))
      else if !x.active then s.(phase := Choices(i + 1))
      else
        match Receive(s.slots, x.fd)
        case Got(m) =>
          var slots := Popped(s.slots, x.fd);
          if m.body == Byte('o') then s.(slots := slots, replays := s.replays + 1, phase := Choices(i + 1))
          else Dropped(s, i, slots)
        case _ => Dropped(s, i, s.slots)
  }

  function StepFinal(s: System): System
    requires s.phase.Final?
  {
    var i := s.phase.i;
    if i >= |s.slots| then s.(phase := Stopped)
    else s.(slots := if s.slots[i].active then CloseFd(s.slots, s.slots[i].fd) else s.slots, phase := Final(i + 1))
  }

  /** The slot the server is about to receive from, or -1. */
  function WaitsFor(s: System): (i: int)
    ensures -1 <= i < |s.slots|
  {
    match s.phase
    case Read(i, readable, _) =>
      if i < |s.slots| && !s.closing && s.slots[i].active && !s.slots[i].ready && s.slots[i].fd in readable
      then i else -1
    case Gather(i, _) => if i < |s.slots| && !s.closing && s.slots[i].active then i else -1
    case Choices(i) => if i < |s.slots| && !s.closing && s.slots[i].active then i else -1
    case _ => -1
  }

  predicate InLoop(s: System) {
    s.phase.Read? || s.phase.Start? || s.phase.Deal? || s.phase.Gather? || s.phase.Results? || s.phase.Choices?
    || s.phase.Final?
  }

  /** The server's next move needs no choice from outside, and recv() would not wait. */
  predicate CanAdvance(s: System) {
    && InLoop(s)
    && (WaitsFor(s) >= 0 ==> !Receive(s.slots, s.slots[WaitsFor(s)].fd).Blocked?)
  }

  function Advanced(s: System): (t: System)
    requires CanAdvance(s)
    ensures |t.slots| == |s.slots|
  {
    match s.phase
    case Read(_, _, _) => StepRead(s)
    case Start(_) => StepStart(s)
    case Deal(_, _) => StepDeal(s)
    case Gather(_, _) => StepGather(s)
    case Results(_, _) => StepResults(s)
    case Choices(_) => StepChoices(s)
    case Final(_) => StepFinal(s)
  }

  // ---------------------------------------------------------------- the whole system

  datatype Action =
    | WelcomeNew(fd: int, k: Client, up: seq<Message>)
    | WelcomeDone
    | SelectReturns
    | SelectFails
    | AdmitNone
    | AdmitNew(fd: int, k: Client, up: seq<Message>)
    | DrawRound(shape: int, draws: seq<nat>)
    | Server
    | ClientStep(j: nat, act: ClientAct)

  predicate Enabled(N: nat, s: System, a: Action) {
    match a
    case WelcomeNew(fd, k, up) => s.phase == Welcome && |s.slots| < N && Fresh(s.slots, fd) && Newcomer(k, up)
    case WelcomeDone => s.phase == Welcome && |s.slots| > 0
    case SelectReturns => s.phase == Select
    case SelectFails => s.phase == Select
    case AdmitNone => s.phase.Admit?
    case AdmitNew(fd, k, up) => s.phase.Admit? && Fresh(s.slots, fd) && Newcomer(k, up)
    case DrawRound(shape, draws) => s.phase == Draw && 0 <= shape < 16 && IsDraws(draws, 16)
    case Server => CanAdvance(s)
    case ClientStep(j, act) => j < |s.slots| && CanAct(s.slots[j].conn, act)
  }

  /** AdmitNew on a full table is the refusal: the new connection is closed at once and no slot changes. */
  function Next(N: nat, s: System, a: Action): (t: System)
    requires Enabled(N, s, a)
    ensures |s.slots| <= |t.slots| <= |s.slots| + 1
  {
    match a
    case WelcomeNew(fd, k, up) => s.(slots := s.slots + [NewSlot(fd, s.round, k, up)])
    case WelcomeDone => s.(phase := Select)
    case SelectReturns => s.(phase := Admit(ReadableFds(s.slots)))
    case SelectFails => s.(phase := Final(0))
    case AdmitNone => s.(phase := Read(0, s.phase.readable, |s.slots|))
    case AdmitNew(fd, k, up) =>
      var slots := if |s.slots| < N then s.slots + [NewSlot(fd, s.round, k, up)] else s.slots;
      s.(slots := slots, phase := Read(0, s.phase.readable, |s.slots|))
    case DrawRound(shape, draws) =>
      s.(table := s.table.(shape := shape, order := Mix(Identity(16), draws)), phase := Deal(0, 0))
    case Server => Advanced(s)
    case ClientStep(j, act) => s.(slots := WithConn(s.slots, j, Act(s.slots[j].conn, act)))
  }

  predicate Initial(s: System) {
    s.phase == Welcome && !s.closing && s.round == 0 && s.slots == []
  }

  ghost predicate Step(N: nat, s: System, t: System) {
    exists a :: Enabled(N, s, a) && Next(N, s, a) == t
  }

  /** A finite run of the system: any interleaving of server and client steps. */
  ghost predicate IsRun(N: nat, run: seq<System>) {
    && |run| > 0 && Initial(run[0])
    && forall i :: 0 <= i < |run| - 1 ==> Step(N, run[i], run[i + 1])
  }
}
