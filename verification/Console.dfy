/**
  What a player has in front of it, and the line to the server.

  A `Line` is the client's end of its connection. Its methods are the calls of client.c, and their
  preconditions say which of them the protocol's client does next and with what contents.

  A `Console` is the line with all devices. Each time the program looks at the buttons or pauses, its journal
  takes down what could be seen at that moment: the picture last shown on the screen, the registers of the LED
  matrix, the digits, and what had been said on the line so far.
*/
module Console {
  import opened Machine
  import opened Protocol
  import opened Buttons
  import opened LedMatrix
  import opened SevenSegment
  import opened Screen
  import opened Lcd
  import opened Touch

  /** Something the server may send while the client waits. */
  predicate Arrives(more: seq<Message>) {
    more != []
  }

  class Line {
    var conn: Conn
    /** What the client has done so far. */
    ghost var acts: seq<ClientAct>

    ghost predicate Up()
      reads this
    {
      conn.open && conn.client.status == Playing
    }

    /** connect(): the start of round 0. */
    constructor ()
      ensures Up() && conn.client.step == 0 && conn.client.round == 0 && acts == []
    {
      conn := Conn(3, true, 0, Client(Playing, 0, 0, 0, [], 0, false, 0, 0, 0), [], []);
      acts := [];
    }

    /** send(): the bytes are those of the next message of the protocol's client. */
    method Send(b: Payload, a: ClientAct)
      requires CanAct(conn, a) && !a.ReceiveNext? && !a.Die?
      requires Act(conn, a).up == conn.up + [Message(conn.client.round, conn.client.step, b)]
      modifies this
      ensures conn == Act(old(conn), a) && acts == old(acts) + [a]
    {
      conn := Act(conn, a);
      acts := acts + [a];
    }

    /** recv(): waits for the server, which may send anything. */
    method Recv() returns (b: Payload)
      requires Up() && conn.client.step in {1, 2, 3, 6, 7}
      modifies this
      ensures conn.open && conn.client == Understood(old(conn.client), b) && conn.up == old(conn.up)
      ensures acts == old(acts) + [ReceiveNext]
    {
      if conn.down == [] {
        assert Arrives([Message(0, 0, Byte('1'))]);
        var more: seq<Message> :| Arrives(more);
        assert Arrives(more);
        conn := conn.(down := more);
      }
      b := conn.down[0].body;
      conn := Act(conn, ReceiveNext);
      acts := acts + [ReceiveNext];
    }
  }

  /** What can be seen at one moment, and what has been said. */
  datatype Scene = Scene(shown: Frame, lit: seq<int>, digits: seq<int>, said: seq<ClientAct>)

  /** A look at the buttons, with those held down, or a pause. */
  datatype Event = Scan(held: Held, scene: Scene) | Wait(scene: Scene)

  predicate InsideCells(dy: int, dx: int) {
    0 <= dy <= SPAN && 0 <= dx <= SPAN && !OnBorder(dy, dx)
  }

  /** The sixteen cells are blank. */
  ghost predicate CellsBlank(w: Window)
    reads w.cells
  {
    forall y, x :: w.OnScreen(y, x) && InsideCells(y - w.startY, x - w.startX) ==> w.cells[y, x] == Char(' ')
  }

  class Console {
    const line: Line
    const w: Window
    const lcd: Display
    const led: Max7219
    const seg: Segments
    const pad: Keypad
    ghost var journal: seq<Event>

    constructor (line: Line, w: Window, lcd: Display, led: Max7219, seg: Segments, pad: Keypad)
      requires w.Valid() && lcd.Ready() && led.Valid() && seg.Valid() && pad.rows.Length == 4
      ensures Valid() && journal == []
      ensures this.line == line && this.w == w && this.lcd == lcd && this.led == led && this.seg == seg
      ensures this.pad == pad
    {
      this.line, this.w, this.lcd, this.led, this.seg, this.pad := line, w, lcd, led, seg, pad;
      journal := [];
    }

    ghost predicate Valid()
      reads this, lcd, led, seg, seg.buffer, pad.rows
    {
      w.Valid() && lcd.Ready() && led.Valid() && seg.Valid() && pad.rows.Length == 4
    }

    ghost function Sees(): Scene
      reads this, w, line, lcd, led, seg, seg.buffer, pad.rows
      requires Valid()
    {
      Scene(if w.frames == [] then [] else w.frames[|w.frames| - 1], led.regs, Cells(seg.buffer[..]), line.acts)
    }

    /** matrice_btn_lire. */
    method Scanner(held: Held) returns (bouton: int)
      requires Valid()
      modifies pad.rows, this`journal
      ensures Valid() && IsReading(held, bouton) && 0 <= bouton <= 16
      ensures journal == old(journal) + [Scan(held, Sees())] && Sees() == old(Sees())
    {
      journal := journal + [Scan(held, Sees())];
      bouton := pad.Lire(held);
    }

    /** delay(). */
    method Patienter()
      requires Valid()
      modifies this`journal
      ensures Valid() && journal == old(journal) + [Wait(Sees())] && Sees() == old(Sees())
    {
      journal := journal + [Wait(Sees())];
    }

    lemma SeesTheLine()
      requires Valid()
      ensures Sees().said == line.acts
    {
    }

    /** The wait for a second of touch; false if there never is one. */
    method Toucher(samples: seq<Sample>) returns (touched: bool)
      requires Valid() && ClockRuns(samples)
      modifies lcd`rs, lcd`data, lcd`strobe, lcd`chip, lcd`cx, lcd`cy
      ensures Valid() && Sees() == old(Sees())
      ensures touched <==> exists p :: 0 <= p <= |samples| && HeldFor(samples, p) >= SECOND
    {
      hide HeldFor, ShowsBar, ShowsInvitation, View;
      ghost var passes;
      touched, passes := AttendreContactTactile(lcd, samples);
    }

    /** A number on the 7-segment display. */
    method Compter(n: int)
      requires Valid() && IsInt32(n) && n != -0x8000_0000
      modifies seg`ram, seg.buffer
      ensures Valid() && Sees() == old(Sees()).(digits := NumberCells(n))
    {
      seg.AfficherNombre(n);
      CellsOfNumber(Cells(seg.buffer[..]), n);
    }

    /** Blanks the 7-segment display. */
    method Vider()
      requires Valid()
      modifies seg`ram, seg.buffer
      ensures Valid() && Sees() == old(Sees()).(digits := [0, 0, 0, 0])
    {
      seg.Effacer();
    }

    /** Blanks the LED matrix. */
    method Eteindre()
      requires Valid()
      modifies led
      ensures Valid() && Sees() == old(Sees()).(lit := led.regs) && Shows(led.regs, seq(8, i => 0))
    {
      led.Effacer();
    }

    /** Blanks the cells of the board, and shows the screen. */
    method EffacerGrille()
      requires Valid()
      modifies w.cells, w`frames
      ensures Valid() && CellsBlank(w) && w.frames == old(w.frames) + [w.Now()]
      ensures Sees() == old(Sees()).(shown := w.Now())
    {
      w.ClearAllCells();
      w.Refresh();
    }

    /** send() on the line. */
    method Envoyer(b: Payload, a: ClientAct)
      requires Valid() && CanAct(line.conn, a) && !a.ReceiveNext? && !a.Die?
      requires Act(line.conn, a).up == line.conn.up + [Message(line.conn.client.round, line.conn.client.step, b)]
      modifies line
      ensures Valid() && line.conn == Act(old(line.conn), a) && line.acts == old(line.acts) + [a]
      ensures Sees() == old(Sees()).(said := line.acts)
    {
      line.Send(b, a);
    }

    /** recv() on the line. */
    method Recevoir() returns (b: Payload)
      requires Valid() && line.Up() && line.conn.client.step in {1, 2, 3, 6, 7}
      modifies line
      ensures Valid() && line.conn.open && line.conn.client == Understood(old(line.conn.client), b)
      ensures line.conn.up == old(line.conn.up) && line.acts == old(line.acts) + [ReceiveNext]
      ensures Sees() == old(Sees()).(said := line.acts)
    {
      b := line.Recv();
    }
  }
}
