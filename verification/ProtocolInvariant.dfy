/**
  What every reachable state of the protocol satisfies, and the proof that each action keeps it.

  The heart is `Aligned`: server and client walk the same script, the server is at step `q` of the client's
  round `m`, and the distance between the two says exactly which messages are under way.
*/
module ProtocolInvariant {
  import opened Shuffle
  import opened Board
  import opened Protocol

  /** The client's place on the script, counted from the start of round m. */
  function Place(k: Client, m: int): int {
    9 * (k.round - m) + k.step
  }

  /** The earliest place a client can be when the server is at step q: it waits for the oldest unread send. */
  function Low(q: int): int {
    if 1 <= q <= 4 then 1 else if 6 <= q <= 8 then 6 else q
  }

  /** The furthest place: a client sends without waiting for the server, but never passes a receive. */
  function High(q: int): int {
    if q <= 1 then 1 else if q <= 3 then q else if q <= 6 then 6 else if q == 7 then 7 else 10
  }

  function UpBody(k: Client, step: int): Payload {
    if step == 0 then Byte('1')
    else if step == 4 then Word(if k.correct then 1 else 0)
    else if step == 5 then Word(k.time)
    else Byte(if k.status == Quit then 'n' else 'o')
  }

  /** The client's message at place e, where 9 is step 0 of the next round. */
  function UpMsg(k: Client, m: int, e: int): Message {
    if e < 9 then Message(m, e, UpBody(k, e)) else Message(m + 1, e - 9, UpBody(k, e - 9))
  }

  function DownBody(t: Table, step: int): Payload {
    if step == 1 then Byte('1')
    else if step == 2 then Word(t.shape)
    else if step == 3 then Order(t.order)
    else if step == 6 then Word(t.best)
    else Word(t.worst)
  }

  function DownMsg(t: Table, m: int, e: int): Message {
    Message(m, e, DownBody(t, e))
  }

  /**
    The unread messages are exactly those between the two places: the client's own sends when it is ahead,
    the server's when the server is. A dead client may have lost the end of its sends.
  */
  predicate Aligned(c: Conn, m: int, q: int, t: Table) {
    var r := Place(c.client, m);
    && c.client.status != Lost && 0 <= c.client.step < 9
    && Low(q) <= r <= High(q)
    && (if c.client.status == Dead
        then c.down == [] && |c.up| <= (if r > q then r - q else 0)
        else |c.up| == (if r > q then r - q else 0) && |c.down| == (if q > r then q - r else 0))
    && (forall n :: 0 <= n < |c.up| ==> c.up[n] == UpMsg(c.client, m, q + n))
    && (forall n :: 0 <= n < |c.down| ==> c.down[n] == DownMsg(t, m, r + n))
    && (c.client.status == Quit ==> c.client.step == 0 && r > q)
  }

  /** What the client has been told in round m is what the server drew and computed. */
  predicate Informed(k: Client, m: int, t: Table) {
    var r := Place(k, m);
    && (r >= 3 ==> k.shape == t.shape)
    && (r >= 4 ==> k.order == t.order && k.position == PositionOf(t.shape, t.order))
    && (r >= 7 ==> k.best == t.best)
    && (r >= 8 ==> k.worst == t.worst)
  }

  /** The script step the server does next with slot j; 9 stands for step 0 of the next round. */
  function Expected(p: Phase, j: nat, ready: bool): int {
    match p
    case Start(i) => if j < i then 2 else 1
    case Draw => 2
    case Deal(i, part) => if j < i then 4 else if j == i then 2 + part else 2
    case Gather(i, part) => if j < i then 6 else if j == i then 4 + part else 4
    case Results(i, part) => if j < i then 8 else if j == i then 6 + part else 6
    case Choices(i) => if j < i then 9 else 8
    case _ => if ready then 1 else 0
  }

  function LoopIndex(p: Phase): int {
    match p
    case Read(i, _, _) => i
    case Gather(i, _) => i
    case Choices(i) => i
    case _ => -1
  }

  /** Which connections the server still holds open. */
  predicate HeldOpen(p: Phase, closing: bool, j: nat, active: bool) {
    match p
    case Final(i) => active && j >= i
    case Stopped => false
    case _ => active || (closing && j == LoopIndex(p))
  }

  /** temps[j] and reponses_correctes[j], against what the player of slot j did in this round. */
  predicate Scored(p: Phase, j: nat, x: Slot) {
    match p
    case Gather(i, part) =>
      if j < i then Recorded(x)
      else if j == i && part == 1 && x.active then x.time == 100 && x.correct == x.conn.client.correct
      else x.time == 100 && !x.correct
    case Results(_, _) => Recorded(x)
    case Choices(_) => x.active ==> Recorded(x)
    case _ => true
  }

  predicate Recorded(x: Slot) {
    if x.active then x.time == x.conn.client.time && x.correct == x.conn.client.correct
    else x.time == 100 && !x.correct
  }

  predicate SlotOk(s: System, j: nat, x: Slot) {
    var k := x.conn.client;
    && x.fd == x.conn.fd
    && (x.conn.open <==> HeldOpen(s.phase, s.closing, j, x.active))
    && x.conn.closes == (if x.conn.open then 0 else 1)
    && k.status != Lost
    && (!x.active ==> k.status != Playing)
    && (x.active && x.conn.open ==>
          && Aligned(x.conn, s.round - x.base, Expected(s.phase, j, x.ready), s.table)
          && Informed(k, s.round - x.base, s.table))
    && Scored(s.phase, j, x)
  }

  predicate DistinctFds(slots: seq<Slot>) {
    forall j, k :: 0 <= j < k < |slots| && slots[j].conn.open && slots[k].conn.open ==>
                     slots[j].conn.fd != slots[k].conn.fd
  }

  /** recv() will not wait on any slot from `from` on that select() reported and that is not yet ready. */
  predicate WillNotWait(slots: seq<Slot>, readable: set<int>, from: nat) {
    forall j :: from <= j < |slots| && slots[j].active && !slots[j].ready && slots[j].fd in readable ==>
                  !ReceiveOn(slots[j].conn).Blocked?
  }

  predicate TableOk(t: Table) {
    0 <= t.shape < 16 && IsPermutation(t.order, 16)
  }

  predicate LoopOk(s: System, i: nat, part: nat) {
    i <= |s.slots| && part <= 1 && (part == 1 ==> i < |s.slots| && (s.slots[i].active || s.closing))
  }

  predicate PhaseOk(s: System) {
    match s.phase
    case Welcome => s.round == 0 && forall j :: 0 <= j < |s.slots| ==> s.slots[j].active && !s.slots[j].ready
    case Select => SomeActive(s.slots)
    case Admit(readable) =>
      && SomeActive(s.slots) && WillNotWait(s.slots, readable, 0)
      && forall f :: f in readable ==> !Fresh(s.slots, f)
    case Read(i, readable, before) =>
      && i <= |s.slots| && before <= |s.slots| && WillNotWait(s.slots, readable, i)
      && forall j :: before <= j < |s.slots| ==>
                       s.slots[j].active && !s.slots[j].ready && s.slots[j].fd !in readable
    case Start(i) => i <= |s.slots| && SomeActive(s.slots) && AllReady(s.slots)
    case Draw => SomeActive(s.slots) && AllReady(s.slots)
    case Deal(i, part) => LoopOk(s, i, part) && SomeActive(s.slots) && TableOk(s.table)
    case Gather(i, part) => LoopOk(s, i, part) && TableOk(s.table)
    case Results(i, part) =>
      LoopOk(s, i, part) && TableOk(s.table) && s.table.best == Best(s.slots) && s.table.worst == Worst(s.slots)
    case Choices(i) =>
      && i <= |s.slots| && TableOk(s.table)
      && (s.replays > 0 <==> exists j :: 0 <= j < i && s.slots[j].active)
    case Final(i) => i <= |s.slots|
    case Stopped => true
  }

  predicate ClosingOk(s: System) {
    s.closing ==> 0 <= LoopIndex(s.phase) < |s.slots| && !s.slots[LoopIndex(s.phase)].active
  }

  predicate Inv(N: nat, s: System) {
    && |s.slots| <= N
    && DistinctFds(s.slots)
    && PhaseOk(s)
    && ClosingOk(s)
    && forall j :: 0 <= j < |s.slots| ==> SlotOk(s, j, s.slots[j])
  }

  // ---------------------------------------------------------------- one connection

  /** A descriptor in an open slot leads to that slot's own connection, although numbers are reused. */
  lemma SelfTenant(slots: seq<Slot>, i: nat)
    requires i < |slots| && DistinctFds(slots) && slots[i].conn.open && slots[i].fd == slots[i].conn.fd
    ensures Tenant(slots, slots[i].fd) == i
  {
    var t := Tenant(slots, slots[i].fd);
    if t < i { } else if t > i { }
  }

  lemma ServerSends(c: Conn, m: int, q: int, t: Table)
    requires Aligned(c, m, q, t) && q in {1, 2, 3, 6, 7}
    ensures var d := if c.client.status == Playing then c.(down := c.down + [DownMsg(t, m, q)]) else c;
            Aligned(d, m, q + 1, t)
  {
  }

  lemma ServerReceives(c: Conn, m: int, q: int, t: Table)
    requires Aligned(c, m, q, t) && q in {0, 4, 5, 8} && c.up != []
    ensures c.up[0] == UpMsg(c.client, m, q)
    ensures (q == 8 && c.client.status == Quit) || Aligned(c.(up := c.up[1..]), m, q + 1, t)
  {
  }

  /** A step of the client keeps its connection aligned, whatever the server is doing. */
  predicate KeepsStep(c: Conn, d: Conn, m: int, q: int, t: Table) {
    && Aligned(d, m, q, t) && d.client.status != Lost
    && Informed(d.client, m, t)
    && d.fd == c.fd && d.open == c.open && d.closes == c.closes
    && (q != 4 ==> d.client.time == c.client.time && d.client.correct == c.client.correct)
    && (!ReceiveOn(c).Blocked? ==> !ReceiveOn(d).Blocked?)
  }

  lemma ClientActs(c: Conn, a: ClientAct, m: int, q: int, t: Table)
    requires Aligned(c, m, q, t) && Informed(c.client, m, t) && CanAct(c, a) && 0 <= q <= 9
    ensures KeepsStep(c, Act(c, a), m, q, t)
  {
    hide Aligned, Informed;
    match a
    case SendNext => ClientSends(c, m, q, t);
    case Play(button, time) => ClientPlays(c, button, time, m, q, t);
    case Choose(again) => ClientChooses(c, again, m, q, t);
    case ReceiveNext => ClientReceives(c, m, q, t);
    case Die(keep) => ClientDies(c, keep, m, q, t);
  }

  lemma ClientDies(c: Conn, keep: nat, m: int, q: int, t: Table)
    requires Aligned(c, m, q, t) && Informed(c.client, m, t) && CanAct(c, Die(keep))
    ensures KeepsStep(c, Act(c, Die(keep)), m, q, t)
  {
  }

  lemma ClientSends(c: Conn, m: int, q: int, t: Table)
    requires Aligned(c, m, q, t) && Informed(c.client, m, t) && CanAct(c, SendNext) && 0 <= q <= 9
    ensures KeepsStep(c, Act(c, SendNext), m, q, t)
  {
    assert c.down == [];
    if c.client.step == 0 { assert Place(c.client, m) in {0, 9}; } else { assert Place(c.client, m) == 5; }
  }

  lemma ClientPlays(c: Conn, button: int, time: int, m: int, q: int, t: Table)
    requires Aligned(c, m, q, t) && Informed(c.client, m, t) && CanAct(c, Play(button, time)) && 0 <= q <= 9
    ensures KeepsStep(c, Act(c, Play(button, time)), m, q, t)
  {
    assert c.up == [] && q == 4;
  }

  lemma ClientChooses(c: Conn, again: bool, m: int, q: int, t: Table)
    requires Aligned(c, m, q, t) && Informed(c.client, m, t) && CanAct(c, Choose(again)) && 0 <= q <= 9
    ensures KeepsStep(c, Act(c, Choose(again)), m, q, t)
  {
    assert c.up == [] && q == 8;
  }

  lemma ClientReceives(c: Conn, m: int, q: int, t: Table)
    requires Aligned(c, m, q, t) && Informed(c.client, m, t) && CanAct(c, ReceiveNext) && 0 <= q <= 9
    ensures KeepsStep(c, Act(c, ReceiveNext), m, q, t)
    ensures c.down[0] == DownMsg(t, c.client.round, c.client.step)
  {
    assert c.client.round == m && c.up == [];
    assert c.down[0] == DownMsg(t, m, c.client.step);
  }

  /** The end of round m at step 9 is the start of round m + 1 at step 0. */
  lemma NextRound(c: Conn, m: int, t: Table)
    requires Aligned(c, m, 9, t) && Informed(c.client, m, t)
    ensures Aligned(c, m + 1, 0, t) && Informed(c.client, m + 1, t)
  {
  }
}
