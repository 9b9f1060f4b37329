/**
  serveur.c as a program: the slot table in arrays, one method per function, run against a `World`.

  Every method keeps `Valid`, whose `os.run` is a run of the protocol that ends in the present state. So the
  loops below do exactly what the protocol says, and every theorem about runs holds for them.
*/
module Server {
  import opened Shuffle
  import opened Protocol
  import opened ProtocolInvariant
  import opened ProtocolPreservation
  import opened ProtocolTheorems
  import opened World
  import opened Scores

  predicate NoneReady(slots: seq<Slot>) {
    forall j :: 0 <= j < |slots| ==> !slots[j].ready
  }

  /** A local array of flags holds client_pret. */
  ghost predicate ReadyFlags(pret: array<bool>, slots: seq<Slot>)
    reads pret
  {
    |slots| <= pret.Length && forall j :: 0 <= j < |slots| ==> pret[j] == slots[j].ready
  }

  /** Two arrays hold temps and reponses_correctes. */
  ghost predicate ScoresHeld(temps: array<int>, correctes: array<bool>, slots: seq<Slot>)
    reads temps, correctes
  {
    && |slots| <= temps.Length && |slots| <= correctes.Length
    && forall j :: 0 <= j < |slots| ==> temps[j] == slots[j].time && correctes[j] == slots[j].correct
  }

  /** In that round of the run, this shape and this order were dealt. */
  ghost predicate DealtIn(run: seq<System>, round: int, shape: int, order: seq<int>) {
    exists i :: 0 <= i < |run| && run[i].phase == Deal(0, 0) && run[i].round == round
                && run[i].table.shape == shape && run[i].table.order == order
  }

  lemma DealtNow(run: seq<System>, round: int, shape: int, order: seq<int>)
    requires run != []
    requires var s := run[|run| - 1];
             s.phase == Deal(0, 0) && s.round == round && s.table.shape == shape && s.table.order == order
    ensures DealtIn(run, round, shape, order)
  {
  }

  lemma DealtStays(run: seq<System>, longer: seq<System>, round: int, shape: int, order: seq<int>)
    requires run <= longer && DealtIn(run, round, shape, order)
    ensures DealtIn(longer, round, shape, order)
  {
    var i :| 0 <= i < |run| && run[i].phase == Deal(0, 0) && run[i].round == round
             && run[i].table.shape == shape && run[i].table.order == order;
    assert longer[i] == run[i];
  }

  /** What the k-th round is dealt: sixteen calls of rand() for each, one for the shape and fifteen to shuffle. */
  predicate DrawsFor(rand: seq<nat>, k: nat) {
    |rand| >= 16 * k + 16
  }

  function ShapeOf(rand: seq<nat>, k: nat): int
    requires DrawsFor(rand, k)
  {
    rand[16 * k] % 16
  }

  function OrderDealt(rand: seq<nat>, k: nat): seq<int>
    requires DrawsFor(rand, k)
  {
    Mix(Identity(16), DrawsOf(rand[16 * k + 1..16 * k + 16]))
  }

  /** Each of the first n rounds, counted from `first`, was dealt the board of its own values of rand(). */
  ghost predicate AllDealt(run: seq<System>, first: int, rand: seq<nat>, n: nat) {
    forall k :: 0 <= k < n ==> DrawsFor(rand, k) && DealtIn(run, first + k, ShapeOf(rand, k), OrderDealt(rand, k))
  }

  lemma AllDealtStays(run: seq<System>, longer: seq<System>, first: int, rand: seq<nat>, n: nat)
    requires run <= longer && AllDealt(run, first, rand, n)
    ensures AllDealt(longer, first, rand, n)
  {
    forall k | 0 <= k < n ensures DealtIn(longer, first + k, ShapeOf(rand, k), OrderDealt(rand, k)) {
      DealtStays(run, longer, first + k, ShapeOf(rand, k), OrderDealt(rand, k));
    }
  }

  lemma OneMoreDealt(run: seq<System>, first: int, rand: seq<nat>, n: nat, shape: int, order: seq<int>)
    requires AllDealt(run, first, rand, n) && DrawsFor(rand, n) && DealtIn(run, first + n, shape, order)
    requires shape == ShapeOf(rand, n) && order == OrderDealt(rand, n)
    ensures AllDealt(run, first, rand, n + 1)
  {
  }

  /** From the end of the results on, to the choices if somebody is there. */
  lemma AfterTheResults(s: System)
    requires s.phase == Results(|s.slots|, 0) && CanAdvance(s)
    ensures Advanced(s) == if SomeActive(s.slots) then s.(phase := Choices(0), replays := 0) else s.(phase := Final(0))
  {
  }

  /** From the end of the choices on, to the next round or to the end; nobody's place or answer changes. */
  lemma AfterTheChoices(s: System, t: System)
    requires s.phase == Choices(|s.slots|) && CanAdvance(s) && t == Advanced(s)
    ensures |t.slots| == |s.slots| && (SomeActive(t.slots) <==> SomeActive(s.slots))
    ensures forall j :: 0 <= j < |s.slots| ==> t.slots[j] == s.slots[j].(ready := t.slots[j].ready)
    ensures if s.replays > 0 then t.phase == Select && t.round == s.round + 1 && NoneReady(t.slots)
            else t.phase == Final(0) && t.slots == s.slots && t.round == s.round
    ensures t.closing == s.closing
  {
    if SomeActive(s.slots) {
      var j :| 0 <= j < |s.slots| && s.slots[j].active;
      assert t.slots[j].active;
    }
    if SomeActive(t.slots) {
      var j :| 0 <= j < |t.slots| && t.slots[j].active;
      assert s.slots[j].active;
    }
  }

  class Server {
    const os: World
    const clients: array<int>
    const actifs: array<bool>
    var nb: nat

    /** The table of the program is the table of the protocol. */
    ghost predicate Agrees(slots: seq<Slot>)
      reads this, clients, actifs
    {
      && nb == |slots| <= clients.Length && nb <= actifs.Length
      && forall j :: 0 <= j < nb ==> clients[j] == slots[j].fd && actifs[j] == slots[j].active
    }

    ghost predicate Valid()
      reads this, os, clients, actifs
    {
      && os.Valid() && os.refused == -1
      && clients.Length == os.N && actifs.Length == os.N
      && Agrees(os.sys.slots) && !os.sys.closing
    }

    constructor (os: World)
      requires os.Valid() && os.refused == -1 && os.sys.phase == Welcome && os.sys.slots == [] && !os.sys.closing
      ensures Valid() && this.os == os && fresh(clients) && fresh(actifs)
    {
      this.os := os;
      clients := new int[os.N];
      actifs := new bool[os.N];
      nb := 0;
    }

    method Enrol(socket: int)
      requires nb < clients.Length == actifs.Length
      modifies this`nb, clients, actifs
      ensures nb == old(nb) + 1 && clients[nb - 1] == socket && actifs[nb - 1]
      ensures clients[..nb - 1] == old(clients[..nb]) && actifs[..nb - 1] == old(actifs[..nb])
    {
      clients[nb] := socket;
      actifs[nb] := true;
      nb := nb + 1;
    }

    /**
      Waits for a first player, then for others while they keep coming: it ends when the table is full, or when
      nobody has come for the whole delay since the last arrival.
    */
    method AttendreClients()
      requires Valid() && os.sys.phase == Welcome && os.sys.slots == [] && os.report == Nothing
      modifies this`nb, os`sys, os`run, os`report, os`window, clients, actifs
      ensures Valid() && old(os.run) <= os.run && os.sys.round == old(os.sys.round)
      ensures os.sys.phase == Select && nb > 0 && NoneReady(os.sys.slots) && SomeActive(os.sys.slots)
      ensures os.report != Failure && (nb == os.N || os.report == Silence)
    {
      hide IsRun, Fresh;
      while nb == 0
        invariant os.sys.round == old(os.sys.round) && Valid() && os.sys.phase == Welcome && old(os.run) <= os.run
        invariant os.report == Nothing && (nb > 0 ==> os.window == CONNECTION_DELAY)
        decreases nb == 0
      {
        var socket := os.AcceptFirst();
        Enrol(socket);
      }
      AttendreAutres();
      WelcomedAreActive();
      os.EndWelcome();
    }

    /** The delay for others, which starts again with each arrival. */
    method AttendreAutres()
      requires Valid() && os.sys.phase == Welcome && nb > 0
      requires os.report == Nothing && os.window == CONNECTION_DELAY
      modifies this`nb, os`sys, os`run, os`report, os`window, clients, actifs
      ensures Valid() && old(os.run) <= os.run && os.sys.round == old(os.sys.round) && os.sys.phase == Welcome
      ensures nb > 0 && os.report != Failure && (nb == os.N || os.report == Silence)
    {
      hide IsRun, Fresh;
      var timeout := CONNECTION_DELAY;
      while nb < os.N
        invariant os.sys.round == old(os.sys.round) && Valid() && os.sys.phase == Welcome
        invariant old(os.run) <= os.run && nb > 0 && timeout == os.window && os.report == Nothing
        decreases os.N - nb, timeout
      {
        timeout := os.SelectWithin(timeout);
        if os.report == Silence {
          break;
        }
        var socket := os.AcceptMore();
        if socket >= 0 {
          Enrol(socket);
          timeout := CONNECTION_DELAY;
        }
      }
    }

    lemma WelcomedAreActive()
      requires Valid() && os.sys.phase == Welcome && nb > 0
      ensures SomeActive(os.sys.slots) && NoneReady(os.sys.slots)
    {
      RunsKeepInvariant(os.N, os.run, |os.run| - 1);
      assert os.sys.slots[0].active;
    }

    /** The descriptors of the active slots, for select(). */
    method ActiveFds() returns (fds: set<int>)
      requires Valid()
      ensures fds == set j | 0 <= j < |os.sys.slots| && os.sys.slots[j].active :: os.sys.slots[j].fd
    {
      fds := {};
      for i := 0 to nb
        invariant fds == set j | 0 <= j < i && os.sys.slots[j].active :: os.sys.slots[j].fd
      {
        if actifs[i] {
          fds := fds + {clients[i]};
        }
      }
    }

    /** Takes in whoever asks to connect; on a full table the connection is closed again. */
    method Admettre(pret: array<bool>)
      requires Valid() && os.sys.phase.Admit? && ReadyFlags(pret, os.sys.slots) && pret.Length == os.N
      requires pret != actifs && os.report == Asking
      modifies this`nb, os`sys, os`run, os`refused, os`report, clients, actifs, pret
      ensures os.report == Nothing
      ensures Valid() && old(os.run) <= os.run && os.sys.round == old(os.sys.round) && ReadyFlags(pret, os.sys.slots)
      ensures AfterAdmission(old(os.sys), os.sys) && nb <= old(nb) + 1
    {
      var socket := os.Accept();
      if socket >= 0 {
        if nb < os.N {
          pret[nb] := false;
          Enrol(socket);
        } else {
          os.CloseRefused(socket);
        }
      }
    }

    /** The player of slot i is gone: the slot becomes inactive and its connection is closed. */
    method Perdre(i: nat)
      requires os.Valid() && os.refused == -1 && clients.Length == os.N && actifs.Length == os.N
      requires os.sys.closing && LoopIndex(os.sys.phase) == i < nb == |os.sys.slots| <= os.N
      requires !os.sys.slots[i].active
      requires forall j :: 0 <= j < nb ==> clients[j] == os.sys.slots[j].fd
      requires forall j :: 0 <= j < nb && j != i ==> actifs[j] == os.sys.slots[j].active
      modifies os`sys, os`run, actifs
      ensures Valid() && old(os.run) <= os.run && AfterClose(old(os.sys), os.sys)
    {
      hide IsRun, Advanced, CanAdvance;
      actifs[i] := false;
      os.Close(clients[i]);
    }

    /** Reads one byte from each slot that select() reported and that is not ready yet. */
    method LireClients(pret: array<bool>, readable: set<int>, ghost before: nat)
      requires Valid() && os.sys.phase == Read(0, readable, before)
      requires ReadyFlags(pret, os.sys.slots) && pret != actifs
      modifies os`sys, os`run, actifs, pret
      ensures Valid() && old(os.run) <= os.run && os.sys.round == old(os.sys.round) && ReadyFlags(pret, os.sys.slots)
      ensures os.sys.phase == Read(nb, readable, before)
    {
      for i := 0 to nb
        invariant os.sys.round == old(os.sys.round) && Valid() && old(os.run) <= os.run
        invariant ReadyFlags(pret, os.sys.slots)
        invariant os.sys.phase == Read(i, readable, before)
      {
        if actifs[i] && !pret[i] && clients[i] in readable {
          LireClient(i, pret, readable, before);
        } else {
          os.Skip();
        }
      }
    }

    /** Reads one byte from slot i, which select() reported. */
    method LireClient(i: nat, pret: array<bool>, readable: set<int>, ghost before: nat)
      requires Valid() && os.sys.phase == Read(i, readable, before) && i < nb
      requires ReadyFlags(pret, os.sys.slots) && pret != actifs
      requires actifs[i] && !pret[i] && clients[i] in readable
      modifies os`sys, os`run, actifs, pret
      ensures Valid() && old(os.run) <= os.run && os.sys.round == old(os.sys.round) && ReadyFlags(pret, os.sys.slots)
      ensures os.sys.phase == Read(i + 1, readable, before)
    {
      hide IsRun, Advanced, CanAdvance;
      var r := os.Recv(clients[i]);
      if r == None {
        Perdre(i);
      } else if r.value == Byte('1') {
        pret[i] := true;
      }
    }

    /** How many slots are active, and how many of them are ready. */
    method CompterPrets(pret: array<bool>) returns (total: nat, prets: nat)
      requires Valid() && ReadyFlags(pret, os.sys.slots)
      ensures total > 0 <==> SomeActive(os.sys.slots)
      ensures prets <= total && (prets == total <==> AllReady(os.sys.slots))
    {
      total, prets := 0, 0;
      for i := 0 to nb
        invariant prets <= total
        invariant total > 0 <==> exists j :: 0 <= j < i && os.sys.slots[j].active
        invariant prets == total <==> forall j :: 0 <= j < i && os.sys.slots[j].active ==> os.sys.slots[j].ready
      {
        if actifs[i] {
          total := total + 1;
          if pret[i] {
            prets := prets + 1;
          }
        }
      }
    }

    /**
      select() on the active slots and the server socket, and the arrival if one is reported; false if select()
      has failed.
    */
    method Ecouter(pret: array<bool>) returns (ok: bool, readable: set<int>)
      requires Valid() && os.sys.phase == Select && ReadyFlags(pret, os.sys.slots) && pret.Length == os.N
      requires pret != actifs && os.report != Failure
      modifies this`nb, os, clients, actifs, pret
      ensures Valid() && old(os.run) <= os.run && os.sys.round == old(os.sys.round)
      ensures nb >= old(nb) && ReadyFlags(pret, os.sys.slots)
      ensures ok <==> os.report != Failure
      ensures if ok then os.patience < old(os.patience) && os.sys.phase == Read(0, readable, old(nb))
              else os.sys == old(os.sys)
    {
      hide IsRun, Fresh;
      var fds := ActiveFds();
      readable := os.SelectFds(fds);
      ok := os.report != Failure;
      if os.report == Asking {
        Admettre(pret);
      } else if os.report == Silence {
        os.NoArrival();
      }
    }

    /**
      One turn of the barrier: select, at most one arrival, the bytes that have come, and the count. False if
      select() has failed, and then nothing has changed.
    */
    method Tour(pret: array<bool>) returns (ok: bool, total: nat, prets: nat)
      requires Valid() && os.sys.phase == Select && ReadyFlags(pret, os.sys.slots) && pret.Length == os.N
      requires pret != actifs && os.report != Failure
      modifies this`nb, os, clients, actifs, pret
      ensures Valid() && old(os.run) <= os.run && os.sys.round == old(os.sys.round)
      ensures nb >= old(nb) && ReadyFlags(pret, os.sys.slots)
      ensures ok <==> os.report != Failure
      ensures !ok ==> os.sys == old(os.sys)
      ensures ok ==> os.patience < old(os.patience) && prets <= total && (total == 0 ==> !SomeActive(os.sys.slots))
      ensures ok ==>
                os.sys.phase == if total == 0 then Final(0) else if prets == total then Start(0) else Select
    {
      hide IsRun, Fresh;
      total, prets := 0, 0;
      var readable;
      ok, readable := Ecouter(pret);
      if !ok {
        return;
      }
      LireClients(pret, readable, os.sys.phase.before);
      total, prets := CompterPrets(pret);
      os.Pass();
    }

    /** Sends the start byte to every active slot. */
    method EnvoyerSignal()
      requires Valid() && os.sys.phase == Start(0)
      modifies os`sys, os`run
      ensures Valid() && old(os.run) <= os.run && os.sys.round == old(os.sys.round) && os.sys.phase == Draw
    {
      for i := 0 to nb
        invariant os.sys.round == old(os.sys.round) && Valid() && old(os.run) <= os.run && os.sys.phase == Start(i)
      {
        if actifs[i] {
          os.Send(clients[i], Byte('1'));
        } else {
          os.Skip();
        }
      }
      os.Pass();
    }

    /**
      The barrier. It goes on until every active player is ready and has been sent the start byte, which is true,
      and gives up only if select() has failed or nobody is left.
    */
    method AttendrePressionTouch() returns (ok: bool)
      requires Valid() && os.sys.phase == Select && NoneReady(os.sys.slots) && os.report != Failure
      modifies this`nb, os, clients, actifs
      ensures Valid() && old(os.run) <= os.run && os.sys.round == old(os.sys.round) && nb >= old(nb)
      ensures os.sys.phase == if ok then Draw else Final(0)
      ensures ok ==> SomeActive(os.sys.slots) && AllReady(os.sys.slots)
      ensures ok <==> os.report != Failure && SomeActive(os.sys.slots)
    {
      hide IsRun;
      var pret := new bool[os.N](_ => false);
      while true
        invariant os.sys.round == old(os.sys.round) && Valid() && os.sys.phase == Select
        invariant old(os.run) <= os.run && nb >= old(nb) && os.report != Failure
        invariant ReadyFlags(pret, os.sys.slots)
        decreases os.patience
      {
        var actif, total, prets := Tour(pret);
        if !actif {
          os.SelectError();
          return false;
        }
        if total == 0 {
          return false;
        }
        if prets == total {
          break;
        }
      }
      EnvoyerSignal();
      AllReadyAtDraw();
      ok := true;
    }

    lemma AllReadyAtDraw()
      requires Valid() && os.sys.phase == Draw
      ensures SomeActive(os.sys.slots) && AllReady(os.sys.slots)
    {
      RunsKeepInvariant(os.N, os.run, |os.run| - 1);
    }

    /** Draws a shape and an order, and sends both to every active slot. */
    method EnvoyerGrilleEtForme(rand: nat, shuffle: seq<nat>)
      requires Valid() && os.sys.phase == Draw && |shuffle| == 15
      modifies os`sys, os`run
      ensures Valid() && old(os.run) <= os.run && os.sys.round == old(os.sys.round) && os.sys.phase == Deal(nb, 0)
      ensures os.sys.table.shape == rand % 16 && os.sys.table.order == Mix(Identity(16), DrawsOf(shuffle))
      ensures DealtIn(os.run, os.sys.round, rand % 16, Mix(Identity(16), DrawsOf(shuffle)))
    {
      hide IsRun, Mix;
      var forme := rand % 16;
      var indices := new int[16];
      ShuffleIndices(indices, shuffle);
      ghost var order := indices[..];
      os.Announce(forme, DrawsOf(shuffle), indices[..]);
      DealtNow(os.run, os.sys.round, forme, order);
      for i := 0 to nb
        invariant os.sys.round == old(os.sys.round) && Valid() && old(os.run) <= os.run && os.sys.phase == Deal(i, 0)
        invariant os.sys.table.shape == forme && os.sys.table.order == order == indices[..]
        invariant DealtIn(os.run, os.sys.round, forme, order)
      {
        ghost var before := os.run;
        if actifs[i] {
          EnvoyerGrille(i, forme, indices[..]);
        } else {
          os.Skip();
        }
        DealtStays(before, os.run, os.sys.round, forme, order);
      }
    }

    /** Sends the shape and the order to slot i. */
    method EnvoyerGrille(i: nat, forme: int, ordre: seq<int>)
      requires Valid() && os.sys.phase == Deal(i, 0) && i < nb && actifs[i]
      requires os.sys.table.shape == forme && os.sys.table.order == ordre
      modifies os`sys, os`run
      ensures Valid() && old(os.run) <= os.run && os.sys.round == old(os.sys.round) && os.sys.phase == Deal(i + 1, 0)
      ensures os.sys.table == old(os.sys.table)
    {
      hide IsRun;
      os.Send(clients[i], Word(forme));
      os.Send(clients[i], Order(ordre));
    }

    /** The answer of one slot: whether it was correct, then the time; either may find the client gone. */
    method RecevoirReponse(i: nat, temps: array<int>, correctes: array<bool>)
      requires Valid() && os.sys.phase == Gather(i, 0) && i < nb && actifs[i]
      requires ScoresHeld(temps, correctes, os.sys.slots) && temps != clients && correctes != actifs
      modifies os`sys, os`run, actifs, temps, correctes
      ensures Valid() && old(os.run) <= os.run && os.sys.round == old(os.sys.round) && os.sys.phase == Gather(i + 1, 0)
      ensures ScoresHeld(temps, correctes, os.sys.slots)
    {
      hide IsRun, Advanced, CanAdvance;
      var r := os.Recv(clients[i]);
      if r == None {
        Perdre(i);
        return;
      }
      correctes[i] := r.value == Word(1);
      RecevoirDuree(i, temps, correctes);
    }

    /** The second half of the answer of slot i, its time. */
    method RecevoirDuree(i: nat, temps: array<int>, correctes: array<bool>)
      requires Valid() && os.sys.phase == Gather(i, 1) && i < nb && actifs[i]
      requires ScoresHeld(temps, correctes, os.sys.slots) && temps != clients && correctes != actifs
      modifies os`sys, os`run, actifs, temps, correctes
      ensures Valid() && old(os.run) <= os.run && os.sys.round == old(os.sys.round) && os.sys.phase == Gather(i + 1, 0)
      ensures ScoresHeld(temps, correctes, os.sys.slots)
    {
      hide IsRun, Advanced, CanAdvance;
      var r := os.Recv(clients[i]);
      if r == None {
        Perdre(i);
        temps[i] := 100;
        correctes[i] := false;
      } else {
        temps[i] := WordOf(r.value);
      }
    }

    /** Every slot starts the round with 100 and a wrong answer. */
    method EffacerTemps(temps: array<int>, correctes: array<bool>)
      requires nb <= temps.Length && nb <= correctes.Length
      modifies temps, correctes
      ensures forall j :: 0 <= j < nb ==> temps[j] == 100 && !correctes[j]
    {
      for i := 0 to nb
        invariant forall j :: 0 <= j < i ==> temps[j] == 100 && !correctes[j]
      {
        temps[i] := 100;
        correctes[i] := false;
      }
    }

    /** Gathers, slot by slot, whether the answer was correct and the time it took. */
    method RecevoirTemps(temps: array<int>, correctes: array<bool>)
      requires Valid() && os.sys.phase == Deal(nb, 0)
      requires temps.Length == os.N && correctes.Length == os.N && temps != clients && correctes != actifs
      modifies os`sys, os`run, actifs, temps, correctes
      ensures Valid() && old(os.run) <= os.run && os.sys.round == old(os.sys.round) && os.sys.phase == Gather(nb, 0)
      ensures ScoresHeld(temps, correctes, os.sys.slots)
      ensures forall j :: 0 <= j < nb ==> Recorded(os.sys.slots[j])
    {
      hide IsRun, Recorded, Best, Worst, Tenant, SomeActive;
      EffacerTemps(temps, correctes);
      os.Pass();
      for i := 0 to nb
        invariant os.sys.round == old(os.sys.round) && Valid() && old(os.run) <= os.run && os.sys.phase == Gather(i, 0)
        invariant ScoresHeld(temps, correctes, os.sys.slots)
      {
        if actifs[i] {
          RecevoirReponse(i, temps, correctes);
        } else {
          os.Skip();
        }
      }
      ScoresAreRecorded();
    }

    /** With every answer in, the table holds what the players of the active slots measured. */
    lemma ScoresAreRecorded()
      requires Valid() && os.sys.phase == Gather(nb, 0)
      ensures forall j :: 0 <= j < nb ==> Recorded(os.sys.slots[j])
    {
      RunsKeepInvariant(os.N, os.run, |os.run| - 1);
      forall j | 0 <= j < nb ensures Recorded(os.sys.slots[j]) {
        assert SlotOk(os.sys, j, os.sys.slots[j]);
      }
    }

    /** The least time below 100 of a correct answer and the greatest time, over the active slots. */
    method CalculerExtremes(temps: array<int>, correctes: array<bool>)
      returns (meilleur: int, pire: int, total: nat)
      requires Valid() && ScoresHeld(temps, correctes, os.sys.slots)
      ensures meilleur == Best(os.sys.slots) && pire == Worst(os.sys.slots)
      ensures total > 0 <==> SomeActive(os.sys.slots)
    {
      ghost var slots := os.sys.slots;
      meilleur, pire, total := 100, 0, 0;
      for i := 0 to nb
        invariant meilleur == Best(slots[..i]) && pire == Worst(slots[..i])
        invariant total > 0 <==> exists j :: 0 <= j < i && slots[j].active
      {
        assert slots[..i + 1][..i] == slots[..i];
        if actifs[i] {
          total := total + 1;
          if correctes[i] && temps[i] < meilleur {
            meilleur := temps[i];
          }
          if temps[i] > pire {
            pire := temps[i];
          }
        }
      }
      assert slots[..nb] == slots;
    }

    /** Computes both extremes and sends them to every active slot; `aucune` if it says that nobody was correct. */
    method EnvoyerResultats(temps: array<int>, correctes: array<bool>)
      returns (meilleur: int, pire: int, aucune: bool)
      requires Valid() && os.sys.phase == Gather(nb, 0) && ScoresHeld(temps, correctes, os.sys.slots)
      modifies os`sys, os`run
      ensures Valid() && old(os.run) <= os.run && os.sys.round == old(os.sys.round) && os.sys.phase == Results(nb, 0)
      ensures aucune <==> NobodyInTime(old(os.sys.slots))
      ensures IsBest(os.sys.slots, meilleur) && IsWorst(os.sys.slots, pire)
      ensures os.sys.table.best == meilleur && os.sys.table.worst == pire
    {
      hide IsRun, Best, Worst, IsBest, IsWorst, NobodyInTime;
      var total;
      meilleur, pire, total := CalculerExtremes(temps, correctes);
      aucune := meilleur == 100 && total > 0;
      WhenBestIsHundred(os.sys.slots);
      os.Pass();
      for i := 0 to nb
        invariant os.sys.round == old(os.sys.round) && Valid() && old(os.run) <= os.run && os.sys.phase == Results(i, 0)
        invariant os.sys.table.best == meilleur && os.sys.table.worst == pire
      {
        if actifs[i] {
          EnvoyerExtremes(i, meilleur, pire);
        } else {
          os.Skip();
        }
      }
      RunsKeepInvariant(os.N, os.run, |os.run| - 1);
      BestIsBest(os.sys.slots);
      WorstIsWorst(os.sys.slots);
    }

    /** Sends both extremes to slot i. */
    method EnvoyerExtremes(i: nat, meilleur: int, pire: int)
      requires Valid() && os.sys.phase == Results(i, 0) && i < nb && actifs[i]
      requires os.sys.table.best == meilleur && os.sys.table.worst == pire
      modifies os`sys, os`run
      ensures Valid() && old(os.run) <= os.run && os.sys.round == old(os.sys.round) && os.sys.phase == Results(i + 1, 0)
      ensures os.sys.table == old(os.sys.table)
    {
      hide IsRun;
      os.Send(clients[i], Word(meilleur));
      os.Send(clients[i], Word(pire));
    }

    /** The choice of one slot: true if it plays on; otherwise it is closed. */
    method RecevoirChoix(i: nat) returns (oui: bool)
      requires Valid() && os.sys.phase == Choices(i) && i < nb && actifs[i]
      modifies os`sys, os`run, actifs
      ensures Valid() && old(os.run) <= os.run && os.sys.round == old(os.sys.round)
      ensures os.sys.phase == Choices(i + 1)
      ensures os.sys.replays == old(os.sys.replays) + if oui then 1 else 0
    {
      hide IsRun, Advanced, CanAdvance;
      var r := os.Recv(clients[i]);
      if r == None {
        Perdre(i);
        return false;
      }
      oui := r.value == Byte('o');
      if !oui {
        Perdre(i);
      }
    }

    /** How many slots are active. */
    method CompterActifs() returns (total: nat)
      requires Valid()
      ensures total > 0 <==> SomeActive(os.sys.slots)
    {
      total := 0;
      for i := 0 to nb
        invariant total > 0 <==> exists j :: 0 <= j < i && os.sys.slots[j].active
      {
        if actifs[i] {
          total := total + 1;
        }
      }
    }

    /** Takes the choice of every active slot and counts those that play on. */
    method CompterRejouer() returns (rejouer: nat)
      requires Valid() && os.sys.phase == Choices(0) && os.sys.replays == 0
      modifies os`sys, os`run, actifs
      ensures Valid() && old(os.run) <= os.run && os.sys.round == old(os.sys.round)
      ensures os.sys.phase == Choices(nb) && os.sys.replays == rejouer
    {
      hide IsRun;
      rejouer := 0;
      for i := 0 to nb
        invariant Valid() && old(os.run) <= os.run && os.sys.phase == Choices(i)
        invariant os.sys.replays == rejouer && os.sys.round == old(os.sys.round)
      {
        if actifs[i] {
          var oui := RecevoirChoix(i);
          if oui {
            rejouer := rejouer + 1;
          }
        } else {
          os.Skip();
        }
      }
    }

    /** Asks every active slot whether it plays on, and closes those that do not. */
    method RecevoirChoixRejouer() returns (encore: bool)
      requires Valid() && os.sys.phase == Results(nb, 0)
      modifies os`sys, os`run, actifs
      ensures Valid() && old(os.run) <= os.run
      ensures encore <==> SomeActive(os.sys.slots)
      ensures os.sys.phase == if encore then Select else Final(0)
      ensures encore ==> NoneReady(os.sys.slots) && os.sys.round == old(os.sys.round) + 1
      ensures encore ==> forall j :: 0 <= j < nb && actifs[j] ==>
                WantsMore(os.sys.slots[j].conn.client, old(os.sys.round) - os.sys.slots[j].base)
    {
      hide IsRun, Inv;
      var total := CompterActifs();
      AfterTheResults(os.sys);
      os.Pass();
      hide Advanced, CanAdvance;
      if total == 0 {
        return false;
      }
      var rejouer := CompterRejouer();
      encore := rejouer > 0;
      ActiveAfterChoices(os.N, os.run, |os.run| - 1);
      ghost var before := os.sys;
      os.Pass();
      AfterTheChoices(before, os.sys);
    }

    /** The final loop of main: closes whatever is still active. */
    method FermerTout()
      requires Valid() && os.sys.phase == Final(0)
      modifies os`sys, os`run
      ensures Valid() && old(os.run) <= os.run && os.sys.phase == Stopped
      ensures forall j :: 0 <= j < nb ==> os.sys.slots[j].conn.closes == 1 && !os.sys.slots[j].conn.open
      ensures SomeActive(os.sys.slots) <==> exists j :: 0 <= j < nb && actifs[j]
    {
      for i := 0 to nb
        invariant Valid() && old(os.run) <= os.run && os.sys.phase == Final(i)
      {
        if actifs[i] {
          os.Close(clients[i]);
        } else {
          os.Skip();
        }
      }
      os.Pass();
      RunsKeepInvariant(os.N, os.run, |os.run| - 1);
    }

    /**
      One turn of main's loop: a whole round. False only if select() has failed in the barrier or nobody plays on.
      `dealt` says whether the round got as far as its board, which is that of the values of rand().
    */
    method Manche(rand: seq<nat>, temps: array<int>, correctes: array<bool>)
      returns (encore: bool, ghost dealt: bool)
      requires Valid() && os.sys.phase == Select && NoneReady(os.sys.slots) && |rand| == 16 && os.report != Failure
      requires temps.Length == os.N && correctes.Length == os.N && temps != clients && correctes != actifs
      modifies this`nb, os, clients, actifs, temps, correctes
      ensures Valid() && old(os.run) <= os.run
      ensures os.sys.phase == if encore then Select else Final(0)
      ensures encore ==> dealt && NoneReady(os.sys.slots) && os.sys.round == old(os.sys.round) + 1
      ensures encore <==> os.report != Failure && SomeActive(os.sys.slots)
      ensures !dealt ==> os.report == Failure || !SomeActive(os.sys.slots)
      ensures dealt ==>
                DealtIn(os.run, old(os.sys.round), rand[0] % 16, Mix(Identity(16), DrawsOf(rand[1..])))
    {
      hide IsRun, Inv, IsBest, IsWorst, DealtIn, NobodyInTime, WantsMore, Recorded, Mix, Identity;
      var ok := AttendrePressionTouch();
      dealt := ok;
      if !ok {
        return false, false;
      }
      EnvoyerGrilleEtForme(rand[0], rand[1..]);
      ghost var atDeal := os.run;
      RecevoirTemps(temps, correctes);
      var meilleur, pire, aucune := EnvoyerResultats(temps, correctes);
      encore := RecevoirChoixRejouer();
      DealtStays(atDeal, os.run, old(os.sys.round), rand[0] % 16, Mix(Identity(16), DrawsOf(rand[1..])));
    }

    /**
      main after listen(): the welcome, then rounds until select() fails in the barrier or nobody plays on. The
      loop is cut off after `tours` rounds; `rand` are the values of rand(), sixteen for each round, and `parties`
      counts the rounds dealt.
    */
    method Jouer(tours: nat, rand: seq<nat>) returns (fini: bool, ghost parties: nat)
      requires Valid() && os.sys.phase == Welcome && os.sys.slots == [] && os.report == Nothing
      requires |rand| == 16 * tours
      modifies this`nb, os, clients, actifs
      ensures Valid() && old(os.run) <= os.run
      ensures fini ==> os.sys.phase == Stopped
      ensures fini ==> forall j :: 0 <= j < nb ==> os.sys.slots[j].conn.closes == 1 && !os.sys.slots[j].conn.open
      ensures fini <==> os.report == Failure || !SomeActive(os.sys.slots)
      ensures !fini ==> os.sys.round == old(os.sys.round) + tours && parties == tours
      ensures parties <= tours
      ensures AllDealt(os.run, old(os.sys.round), rand, parties)
    {
      hide IsRun, Inv, IsBest, IsWorst, DealtIn, AllDealt, ShapeOf, OrderDealt;
      AttendreClients();
      var temps := new int[os.N];
      var correctes := new bool[os.N];
      var k := 0;
      parties := 0;
      NoneDealt(os.run, os.sys.round, rand);
      while k < tours
        invariant 0 <= k <= tours && parties == k
        invariant Valid() && old(os.run) <= os.run && os.sys.phase == Select && NoneReady(os.sys.slots)
        invariant SomeActive(os.sys.slots) && os.report != Failure
        invariant os.sys.round == old(os.sys.round) + k
        invariant AllDealt(os.run, old(os.sys.round), rand, parties)
      {
        var encore;
        encore, parties := Tournee(rand, k, temps, correctes, old(os.sys.round));
        if !encore {
          ghost var atEnd := os.run;
          FermerTout();
          AllDealtStays(atEnd, os.run, old(os.sys.round), rand, parties);
          fini := true;
          return;
        }
        k := k + 1;
      }
      fini := false;
    }

    /** Round k of the main loop, with its own sixteen values of rand(). */
    method Tournee(rand: seq<nat>, k: nat, temps: array<int>, correctes: array<bool>, ghost first: int)
      returns (encore: bool, ghost parties: nat)
      requires Valid() && os.sys.phase == Select && NoneReady(os.sys.slots) && os.report != Failure
      requires temps.Length == os.N && correctes.Length == os.N && temps != clients && correctes != actifs
      requires DrawsFor(rand, k) && os.sys.round == first + k && AllDealt(os.run, first, rand, k)
      modifies this`nb, os, clients, actifs, temps, correctes
      ensures Valid() && old(os.run) <= os.run
      ensures os.sys.phase == if encore then Select else Final(0)
      ensures encore ==> parties == k + 1 && NoneReady(os.sys.slots) && os.sys.round == old(os.sys.round) + 1
      ensures encore <==> os.report != Failure && SomeActive(os.sys.slots)
      ensures k <= parties <= k + 1 && AllDealt(os.run, first, rand, parties)
    {
      hide IsRun, Inv, DealtIn, AllDealt, ShapeOf, OrderDealt;
      ghost var before, dealt := os.run, false;
      encore, dealt := Manche(rand[16 * k..16 * k + 16], temps, correctes);
      AllDealtStays(before, os.run, first, rand, k);
      RoundDraws(rand, k);
      parties := k;
      if dealt {
        OneMoreDealt(os.run, first, rand, k, ShapeOf(rand, k), OrderDealt(rand, k));
        parties := k + 1;
      }
    }
  }

  lemma NoneDealt(run: seq<System>, first: int, rand: seq<nat>)
    ensures AllDealt(run, first, rand, 0)
  {
  }

  /** Sixteen values cut out for one round deal the same as in place. */
  lemma RoundDraws(rand: seq<nat>, k: nat)
    requires DrawsFor(rand, k)
    ensures var cut := rand[16 * k..16 * k + 16];
            cut[0] % 16 == ShapeOf(rand, k) && Mix(Identity(16), DrawsOf(cut[1..])) == OrderDealt(rand, k)
  {
    var cut := rand[16 * k..16 * k + 16];
    assert cut[1..] == rand[16 * k + 1..16 * k + 16];
  }
}
