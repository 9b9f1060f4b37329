# Reflex game: protocol and drivers

A networked reflex game. One server lets up to N players in, makes them wait for each other, deals all of them
the same shuffled board of sixteen glyphs, and times how fast each finds the glyph shown on an LED matrix. Each
player's Raspberry Pi drives a character display, an LED matrix, a 7-segment display, a 4x4 button matrix, a
touch sensor and a terminal screen.

The project models the round protocol (`serveur.c`, `client.c`, the wrappers of `lib/jeu.c`) and the hand-written
drivers, and proves what they promise.

**The protocol.** `Protocol.dfy` is an interleaved transition system: one server, any number of players, a FIFO
channel each way, arrivals at the welcome and in the barrier, crashes at any time. A round is a script of nine
steps walked by both ends. `ProtocolInvariant.dfy` says what every reachable state satisfies, and
`ProtocolPreservation.dfy` that every action keeps it. From that follow, in `ProtocolTheorems.dfy` and
`Scores.dfy`: each receive gets the message meant for it, no deadlock, a bound on the barrier's work, barrier
safety, agreement on the board, descriptors neither leaked nor shared nor closed twice, and scores that are right
from the players' devices to the players' displays. `Agreement.dfy` compares what the players of a round were dealt,
`BarrierProgress.dfy` shows that the barrier can always be passed, `RoundBound.dfy` that every round ends, and `Departures.dfy` says when the server notices
that a player has gone. I/O goes by descriptor number, and a number may be reused as soon as it is free.

**The programs.** `Server.dfy` is `serveur.c` with its arrays and loops. It runs against `World.dfy`, which lets the
players act before each call and takes the step of the protocol that stands for the call; the calls'
preconditions come from the protocol. So each method extends a run of the protocol, and the theorems about
runs hold for the program. `ClientProgram.dfy` does the same for one round and the main loop of `client.c`, with
the touch sensor, the buttons, the board on the screen, the LED matrix and the 7-segment display attached.
`Console.dfy` holds them together and keeps a journal: what could be seen, and what had been said on the line, each
time the program looked at the buttons or paused.
`Wire.dfy` goes down to bytes, and `Traffic.dfy` says which bytes go over each connection in a run.

**The drivers.** Each driver is written together with the chip it talks to: `Lcd.dfy` (HD44780U), `LedMatrix.dfy`
(MAX7219), `SevenSegment.dfy` (HT16K33), `Screen.dfy` (a character screen), `Buttons.dfy` (the button matrix). The
behaviour of the chips is that of their data sheets: for the HD44780U the sections "Interfacing to the MPU",
"Instructions" and "Initializing by Instruction". `Game.dfy` and `Touch.dfy` combine them.

Places where the obvious claim fails, and what holds instead:

- `lcd_position` lets `x == 16` and `y == 2` through. `PositionTo` states when the cursor record is right afterwards:
  if and only if the call is ignored or strictly inside. What is written from the two edges is not shown
  (`PastTheEndIsNotShown`, `BelowIsNotShown`).
- `lcd_init` ends with a cursor shift. `Init` states that the chip is then one cell ahead of the record; clearing,
  homing or moving the cursor brings them together.
- `lcd_def_caractere` leaves the chip in the character generator, where the record no longer applies.
- `meilleur_temps == 100` does not mean that nobody was correct, nor that "no correct answer" is printed, and `meilleur <= pire` can fail.
  `WhenBestIsHundred` and `WhenBestIsBelowWorst` give the exact conditions, and two lemmas give tables that show it.
- A player already marked ready is not read again in the barrier, so a later crash stays unseen there.
  `RoundMayStartWithoutItsPlayer` is a run in which a round starts and its only player has gone.
  `VanishedIsInAtStart` gives the exact condition under which such a slot is still in the game when the round starts,
  `VanishedIsDroppedWhen` the one under which a visit of the reading loop drops it; `ReadyStays`
  says that nothing outside the two gathering loops ever drops a ready slot, and `GoneAtTheDrawIsOutByResults` that
  it is out by the time results are sent.
- A correct press can come too late: the final time is read from the clock after the press. `WhichVerdict` gives the
  exact condition of each verdict.

Assumptions: a receive gets its full length; a send to a player who has gone is dropped and does not end the
server; the clock does not run backwards; a time in tenths fits an int. A player who crashes may take the unread end of its sends with it.

## Model

| member | source | states |
|---|---|---|
| Shuffle.ShuffleIsBijection | serveur.c:205-216 | the swap loop maps draw vectors one to one onto the permutations of 0..n-1, for every n |
| Shuffle.FirstDrawDecidesLast | serveur.c:209-216 | the number drawn first ends up last, and the one that was last takes its place among the rest |
| Shuffle.OwnDrawsMoveNothing | serveur.c:209-216 | when each index draws itself the order stays |
| Shuffle.DrawsOf | serveur.c:210 | the draw for index i is at most i and congruent to the value of its call of rand() modulo i + 1; the calls come in order, for the last index first |
| Shuffle.DrawsAreDetermined | serveur.c:210 | these conditions determine the draws |
| Shuffle.DrawsOfRandFor | serveur.c:210 | every draw vector is drawn by some values of rand() |
| Shuffle.EveryOrderIsDealt | serveur.c:205-216 | for every permutation some values of rand() make the loop produce it |
| Shuffle.MixIsPermutation | serveur.c:209-216 | the loop only reorders |
| Shuffle.MixUndoesUnmix | serveur.c:209-216 | every reordering is reached, by draws that are computed from it |
| Shuffle.UnmixUndoesMix | serveur.c:209-216 | the draws can be read back from the shuffled sequence, so no two draw vectors agree |
| Shuffle.PermutationIsReordering | lib/jeu.c:347-360 | being a permutation of 0..n-1 and holding each number once are the same |
| Shuffle.ShuffleIndices | serveur.c:205-216 | the in-place loops, with one call of rand() for each index from the last down to 1, compute `Mix` of the identity |
| Board.PositionOf | lib/jeu.c:391-411 | the position returned is that of the last cell with the shape; -1 exactly when the shape is not on the board |
| Board.PositionOnPermutation | lib/jeu.c:391-411 | on a permutation the position is in 1..16 and is the only cell with that shape |
| Protocol.Tenant | serveur.c:142 | a descriptor leads to the open connection that holds it, or to none |
| ProtocolInvariant.SelfTenant | serveur.c:98-142 | although numbers are reused, a descriptor in an open slot leads to that slot's connection |
| ProtocolInvariant.ServerReceives | serveur.c:142-152 | a receive takes the oldest message, which is the one sent for that step of that round, and moves the server on by one step |
| ProtocolInvariant.ServerSends | serveur.c:186-190 | a send moves the server on by one step and leaves exactly the unread gap under way |
| ProtocolInvariant.ClientActs | client.c:89-269 | each step of a client keeps its connection aligned, whatever the server is doing, and never changes an answer that is being gathered |
| ProtocolInvariant.ClientReceives | client.c:110-128 | what a client receives was sent for its own round and step |
| ProtocolInvariant.NextRound | serveur.c:415-441 | the end of one round is the start of the next, with a queued ready byte carried over correctly |
| ProtocolPreservation.ReadKeeps | serveur.c:140-178 | the reading loop of the barrier and its closing test keep the invariant |
| ProtocolPreservation.StartKeeps | serveur.c:183-190 | the loop that sends the start byte keeps the invariant |
| ProtocolPreservation.DealKeeps | serveur.c:220-229 | the loop that sends shape and order keeps the invariant |
| ProtocolPreservation.GatherKeeps | serveur.c:243-274 | gathering answers and times, with either receive failing, keeps the invariant |
| ProtocolPreservation.GatherEndKeeps | serveur.c:277-301 | computing the extremes changes nothing that is under way |
| ProtocolPreservation.ResultsKeeps | serveur.c:311-317 | sending the extremes keeps the invariant |
| ProtocolPreservation.ChoicesKeeps | serveur.c:339-357 | gathering choices and closing those who leave keeps the invariant |
| ProtocolPreservation.ChoicesEndKeeps | serveur.c:359-361 | starting the next round or stopping keeps the invariant |
| ProtocolPreservation.SelectKeeps | serveur.c:88-110 | after select() reported a slot, receiving from it does not wait |
| ProtocolPreservation.ArrivalKeeps | serveur.c:118-137 | admitting or refusing a connection, at the welcome or in the barrier, keeps the invariant |
| ProtocolPreservation.ClientKeeps | client.c:89-269 | any act of any player, crashes included, keeps the invariant |
| ProtocolPreservation.NextKeeps | serveur.c:75-361 | every action of the system keeps the invariant |
| ProtocolPreservation.RunsKeepInvariant | serveur.c:411-451 | the invariant holds in every state of every run, for any number of clients and any interleaving |
| ProtocolTheorems.ServerReceivesWhatItAwaits | serveur.c:142-342 | phase alignment, server side: each receive gets the message of that slot's client for that very round and step, with the expected contents |
| ProtocolTheorems.ClientReceivesWhatItAwaits | client.c:110-234 | phase alignment, client side: '1', the shape, the order, the best and the worst time, each at its own step; no client ever sees another start byte |
| ProtocolTheorems.UnreadIsTheGap | client.c:89-269 | the unread messages of a live player are exactly the sends between the two peers' places: at most two up or three down, never both |
| ProtocolTheorems.NoDeadlock | serveur.c:87-361 | before the end the server can move, or it waits for a live player whose own acts end the wait |
| ProtocolTheorems.PlayerWakesServer | serveur.c:246-342 | finitely many acts of the one player waited for make the receive return |
| ProtocolTheorems.NeverBothWait | client.c:110-234 | a server blocked on a player and that player are never both waiting |
| ProtocolTheorems.RoundStepDecreases | serveur.c:183-361 | each step of the server in a round decreases a measure until the next barrier or the end |
| ProtocolTheorems.EveryRoundCanFinish | serveur.c:415-441 | from every reachable state inside a round, the players present and the server can finish it |
| RoundBound.EveryStepIsOneLess | serveur.c:183-361 | inside a round every step of the server, of a player, or a crash decreases one measure |
| RoundBound.RoundsAreFinite | serveur.c:183-361 | every interleaving inside a round has at most 32 steps for each slot and 24 more |
| ProtocolTheorems.BarrierStepDecreases | serveur.c:87-179 | each step in the barrier leaves the table alone or decreases 2*(N - slots) + (active and not ready) |
| ProtocolTheorems.BarrierChangesAreBounded | serveur.c:87-179 | over any stretch of a run in the barrier, at most that measure many steps change anything |
| ProtocolTheorems.StartByteComesFromBarrier | serveur.c:183-190 | a start byte is put on a channel only by the loop after the barrier, on the active slot it has reached |
| ProtocolTheorems.BarrierIsSafe | serveur.c:156-190 | when a start byte goes out somebody is active and every active player has sent '1' in this round |
| ProtocolTheorems.ReadyIsOfThisRound | serveur.c:79-151 | a ready flag stands for a byte of this very round that has been read, and of a player who has not vanished such a byte sets the flag |
| ProtocolTheorems.NewcomerIsNotRead | serveur.c:118-154 | a connection accepted in a turn of the loop is not read in that turn |
| ProtocolTheorems.DescriptorsMatchActiveSlots | serveur.c:118-147 | open descriptors are those of the active slots, all different, except for one that is being closed |
| ProtocolTheorems.EachConnectionClosedOnce | serveur.c:443-449 | nothing is closed twice; after the end everything has been closed once |
| ProtocolTheorems.TableOnlyGrows | serveur.c:125-129 | nb_clients never decreases nor exceeds MAX_CLIENTS, and slots keep their connection |
| ProtocolTheorems.OnlyTheGoneAreDropped | serveur.c:143-147 | an inactive slot belongs to a player who quit or died |
| ProtocolTheorems.ActiveAfterChoices | serveur.c:339-361 | after the choices the active slots are those who answered 'o', and the count is positive iff there is one |
| ProtocolTheorems.RoundsStartWithAPlayer | serveur.c:169-178 | every turn of the barrier and every round has an active player |
| ProtocolTheorems.NothingLeftToClose | serveur.c:437-449 | when nobody plays on, the final close loop has nothing to close |
| Agreement.DealtHoldsTheBoard | client.c:122-138 | whoever has been dealt the present round holds the server's own shape and permutation, and a position in 1..16 that shows the shape |
| Agreement.BoardStandsBetweenDraws | serveur.c:195-216 | shape and order never change between two draws |
| Agreement.OneDrawARound | serveur.c:411-441 | after its draw a round sees no second one, and rounds never go back |
| Agreement.PlayersAgree | serveur.c:195-230 | all players dealt in a round, at the same moment or at different ones, hold the same shape and permutation and compute the same position in 1..16 |
| Departures.ReadyStays | serveur.c:141-152 | outside the two gathering loops no action of anybody takes a ready slot's place or flag |
| Departures.ReadyStaysOverRun | serveur.c:141-229 | so over any stretch of a run, whatever happens to its player: from the ready byte to the answers |
| Departures.VanishedIsDroppedWhen | serveur.c:141-152 | in the barrier the slot of a vanished player is dropped iff it was reported, is not ready and has no byte left to read |
| Departures.VanishedIsInAtStart | serveur.c:87-179 | over a whole barrier: the slot of a vanished player is in the game at the start of the round iff it was ready or its ready byte was still to be read |
| Departures.VanishedIsDroppedInGathering | serveur.c:246-347 | in the gathering loops it is dropped iff nothing is left to read, or what is left of its choice is not 'o' |
| Departures.VanishedIsOutByResults | serveur.c:243-318 | who vanishes before answers are gathered is out by the results, unless it had already answered in full |
| Departures.GoneAtTheDrawIsOutByResults | serveur.c:183-318 | who was gone when the round was drawn is out by the results |
| Departures.RoundMayStartWithoutItsPlayer | serveur.c:141-178 | a run, for any table size, in which the round starts and its only player has vanished |
| BarrierProgress.ReadStep | serveur.c:140-154 | each turn of the reading loop can go on, comes nearer its end, and passes over nobody who was to be read |
| BarrierProgress.FinishTurn | serveur.c:140-178 | a turn ends past the barrier, or at select() with somebody not ready and fewer of them if one was to be read |
| BarrierProgress.BarrierCanBePassed | serveur.c:87-179 | from every reachable state of the barrier, the players present and the server can reach the start of the round or the end, without an arrival or a crash |
| Scores.BestIsBest | serveur.c:287-301 | meilleur_temps is the least correct time under 100, or 100 if there is none |
| Scores.WorstIsWorst | serveur.c:287-301 | pire_temps is the greatest active time, or 0 |
| Scores.ExtremesAreUnique | serveur.c:287-301 | these two conditions determine the values |
| Scores.ExtremesIgnoreSlotOrder | serveur.c:287-301 | both values are the same under any permutation of the slots |
| Scores.WhenBestIsBelowWorst | serveur.c:279-301 | meilleur <= pire exactly when someone is correct under 10 s or someone took 10 s |
| Scores.BestAboveWorst | serveur.c:279-301 | a table where meilleur > pire |
| Scores.WhenBestIsHundred | serveur.c:304-306 | the best time is 100 exactly when nobody is correct under 10 s; "no correct answer" is printed exactly when, besides, somebody is active |
| Scores.HundredWithACorrectAnswer | serveur.c:304-306 | a table with a correct answer for which it is printed all the same |
| Scores.ResultsAreRight | serveur.c:232-318 | end to end: inactive slots carry (100, false), active ones their player's values; best < 100 iff an active player took its success branch, and then it is their least time; worst is the greatest time |
| Scores.PlayersSeeTheResults | client.c:231-243 | what a player is shown is what the server computed |
| World.RecvEffect | lib/jeu.c:24-26 | what a receive and the protocol's reaction do to the server's table, in each receiving loop |
| World.SendEffect | lib/jeu.c:20-22 | a send changes no column of the server's table |
| World.CloseEffect | serveur.c:147 | a close changes no column of the server's table |
| World.SilentStepsDoNothing | serveur.c:140-361 | a step for which the program makes no call touches no connection |
| World.SendingStepsSend | lib/jeu.c:20-22 | a step for which it calls send() puts exactly those contents on that connection |
| World.ClosingStepsClose | serveur.c:147 | a step for which it calls close() closes the connection of that descriptor |
| World.World.Recv | lib/jeu.c:24-26 | recv() returns, for any behaviour of the players before it; the wait can end because the protocol has no deadlock |
| World.World.Send | lib/jeu.c:20-22 | only the send the protocol expects next, on that descriptor with those contents |
| World.World.SelectFds | serveur.c:110 | what is readable, and a report that the program cannot make up: somebody asks, nobody does, or the call has failed |
| World.World.SelectError | serveur.c:112-115 | giving up is possible only after a select() that has failed |
| World.World.Accept | serveur.c:122-136 | a new slot at the end, or a refused connection that must be closed next, or nothing |
| Server.Server.AttendreClients | serveur.c:18-73 | ends with at least one player, all active, none ready, and only when the table is full or nobody came within the delay |
| Server.Server.AttendreAutres | serveur.c:41-70 | the delay starts again with each arrival, and runs out or select() fails before the welcome ends |
| Server.Server.Admettre | serveur.c:118-137 | the arrays keep agreeing with the protocol's table; on a full table the connection is closed |
| Server.Server.Ecouter | serveur.c:88-137 | select() and, exactly if one is reported, an arrival lead to the reading loop; false exactly if select() has failed |
| Server.Server.Perdre | serveur.c:146-147 | a slot whose player has gone is inactive and its own connection, no other, is closed |
| Server.Server.LireClients | serveur.c:140-154 | the arrays follow the protocol through the reading loop |
| Server.Server.LireClient | serveur.c:142-152 | one reported slot, as one receive of the protocol and a close if the stream has ended; the ready flag follows |
| Server.Server.CompterPrets | serveur.c:157-167 | positive total iff someone is active; equal counts iff all active are ready |
| Server.Server.Tour | serveur.c:87-179 | one turn of the barrier ends in the phase the protocol prescribes, or with select() failed and nothing changed |
| Server.Server.AttendrePressionTouch | serveur.c:75-193 | true with every active slot ready and started; false exactly if select() has failed or nobody is left; the array code is a run of the protocol |
| Server.Server.EnvoyerGrilleEtForme | serveur.c:195-230 | sends the shape and the order that the values of rand() give to every active slot, as a run of the protocol |
| Server.Server.EnvoyerGrille | serveur.c:223-227 | shape then order, exactly as drawn, to one slot |
| Server.Server.RecevoirReponse | serveur.c:244-273 | one slot's answer and time, with both failure paths |
| Server.Server.RecevoirDuree | serveur.c:258-273 | the time of one slot, or a close if its player has gone in between; both arrays go on holding the protocol's values |
| Server.Server.RecevoirTemps | serveur.c:232-275 | afterwards active slots hold their player's values and inactive ones (100, false) |
| Server.Server.CalculerExtremes | serveur.c:279-301 | the loop computes both extremes, and a count that is positive iff someone is active |
| Server.Server.EnvoyerResultats | serveur.c:277-318 | computes the extremes and sends them to every active slot, as a run of the protocol; says that nobody was correct exactly when someone is active and nobody is correct in time |
| Server.Server.EnvoyerExtremes | serveur.c:313-316 | best then worst, exactly as computed, to one slot |
| Server.Server.CompterActifs | serveur.c:325-332 | positive iff someone is active |
| Server.Server.CompterRejouer | serveur.c:339-357 | the count is the number the protocol counts, and the loop a run of it |
| Server.Server.RecevoirChoixRejouer | serveur.c:320-361 | true iff someone is still active; the active are those who want more; flags are reset |
| Server.Server.FermerTout | serveur.c:443-449 | afterwards every connection has been closed exactly once |
| Server.Server.Manche | serveur.c:415-441 | one whole round of the main loop, dealt the board of its sixteen values of rand(); it ends the game exactly if select() has failed or nobody plays on |
| Server.Server.Tournee | serveur.c:415-441 | the k-th round takes the k-th sixteen values of rand() |
| Server.Server.Jouer | serveur.c:410-451 | main: it ends exactly if select() fails in a barrier or nobody plays on; then each accepted connection has been closed exactly once; each round was dealt its own board |
| Wire.StreamRoundTrip | lib/jeu.c:20-26 | with receives of full length, the reader gets the messages written, as many as came through whole, however the bytes are cut or merged and wherever they break off |
| Wire.WholeOfEverything | lib/jeu.c:20-26 | when everything written has come through, every message has come through whole |
| Wire.MessageRoundTrip | serveur.c:224-227 | one message of each kind survives encoding |
| Wire.WordBytesValue | serveur.c:224 | the four bytes of an int are its value modulo 2 to the 32, least significant first |
| Wire.WordRoundTrip | client.c:226-234 | an int survives its four bytes, negative ones included |
| Traffic.DownLogFollowsScript | client.c:110-234 | in every run the n-th message to a client is the one for the n-th receive of its program, of the sort that receive asks for; a live player has taken exactly as many as its program has behind it |
| Traffic.UpLogFollowsScript | serveur.c:142-342 | in every run the n-th message from a client is the one for the n-th receive of the server's program on that connection |
| Traffic.ServerHasTaken | serveur.c:142-342 | the server has taken exactly as many messages of a player as its own program has receives behind it |
| Traffic.DownstreamIsRecovered | client.c:110-234 | in every run, of the bytes sent to a client, broken off anywhere and cut into any chunks, the first n receives of client.c give the messages sent, as far as they came through whole |
| Traffic.UpstreamIsRecovered | serveur.c:142-342 | the same for the bytes from a client and the receives of serveur.c |
| Traffic.MessagesHaveTheKindOfTheirStep | client.c:104-260 | in every run each message has the sort of contents, hence the size, its step calls for |
| LedMatrix.ShiftInAppendsByte | lib/my_matrice_led.c:11-19 | eight passes append the low byte, most significant bit first, to any shift register |
| LedMatrix.CommandBytes | lib/my_matrice_led.c:46-47 | after both bytes the register holds exactly address and data |
| LedMatrix.Max7219.BitWrite | lib/my_matrice_led.c:11-19 | eight clock edges; the register gains the byte |
| LedMatrix.Max7219.EnvoyerCmd | lib/my_matrice_led.c:43-49 | from any pin levels: sixteen clock edges, one load edge, only the addressed register written |
| LedMatrix.Max7219.EcrireLigne | lib/my_matrice_led.c:54-58 | writes one line; lines from 8 on are ignored |
| LedMatrix.Max7219.AfficherMotif | lib/my_matrice_led.c:63-68 | digit registers 1 to 8 show the eight rows, every other register is unchanged |
| LedMatrix.Max7219.Effacer | lib/my_matrice_led.c:73-76 | all eight rows are dark |
| LedMatrix.Max7219.Luminosite | lib/my_matrice_led.c:81-84 | brightness above 15 counts as 15; nothing else changes |
| LedMatrix.Max7219.Init | lib/my_matrice_led.c:24-38 | the set-up leaves the chip running, undecoded, with all digits and dark |
| LedMatrix.SetUpShowsThePattern | lib/my_matrice_led.c:24-38 | once set up, the chip lights exactly the lamps of the pattern, by its own register numbers |
| LedMatrix.PixelsSpellLine | lib/jeu.c:414-423 | a line is the number its pixels spell, leftmost first |
| Lcd.InitSynchronises | lib/my_lcd.c:352-358 | nibbles 3, 3, 3, 2 leave the chip in 4-bit mode between bytes, from any state and any unconnected lines |
| Lcd.InstructionCodes | lib/my_lcd.c:18-41 | the instruction codes the driver uses do what the data sheet says |
| Lcd.TwoEdges | lib/my_lcd.c:78-97 | two nibbles make the chip carry out the byte |
| Lcd.LastWriteIsSeen | lib/my_lcd.c:236-257 | each visible cell holds the last character whose position is congruent to it modulo 32 |
| Lcd.Display.PutNibble | lib/my_lcd.c:79-83 | the bit loop puts the nibble on the lines |
| Lcd.Display.SendDataCmd | lib/my_lcd.c:74-98 | the chip carries out exactly the byte sent |
| Lcd.Display.Put4Command | lib/my_lcd.c:112-123 | one nibble, one edge |
| Lcd.Display.Origine | lib/my_lcd.c:132-138 | cursor home, text unchanged, record and chip agree |
| Lcd.Display.Effacer | lib/my_lcd.c:143-150 | blank display, cursor home, record and chip agree, from any entry mode |
| Lcd.Display.SetControl | lib/my_lcd.c:155-192 | changes one control bit, on both sides, and no other |
| Lcd.Display.PositionTo | lib/my_lcd.c:205-217 | record and chip agree on a visible cell afterwards iff the call was ignored or strictly inside; x == 16 and y == 2 break it |
| Lcd.Display.DefCaractere | lib/my_lcd.c:222-231 | stores the eight lines of the pattern in its place of the character generator and nowhere else; the text is unchanged, the chip out of step with the cursor |
| Lcd.Display.Caractere | lib/my_lcd.c:236-249 | writes where the chip is and moves on, on both sides; at a visible cell it wraps around the 32 cells |
| Lcd.WroteAllVisible | lib/my_lcd.c:236-257 | from a visible cell, typing is that of a 32-cell terminal, for strings of any length |
| Lcd.PastTheEndIsNotShown | lib/my_lcd.c:208-249 | from column 16, the characters up to the fortieth of the row are not shown |
| Lcd.ThenTheOtherRow | lib/my_lcd.c:208-249 | the one after that comes out at the start of the other row |
| Lcd.BelowIsNotShown | lib/my_lcd.c:208-249 | from row 2 nothing is shown, and there are addresses for exactly the rest of rows 2 and 3, but the last |
| Lcd.Display.Chaine | lib/my_lcd.c:254-257 | a string of any length is typed with wrap-around; from elsewhere, as far as there are addresses |
| Lcd.Display.Ecrire | lib/my_lcd.c:380-383 | a string from a given cell, or on from the cursor when the cell is out of range; from the two edges, what is not shown |
| Lcd.Display.RunAll | lib/my_lcd.c:132-257 | any sequence of moves, clears, homes and strings: driver and chip are a 32-cell wrap-around terminal |
| Lcd.Display.Init | lib/my_lcd.c:331-372 | from any state: ready and blank, but the last command puts the chip one cell ahead of the record |
| SevenSegment.NumberRoundTrip | lib/my_7_segment.c:153-180 | from -999 to 9999 the display reads back as the number |
| SevenSegment.DigitsLookRight | lib/my_7_segment.c:10-23 | each digit lights the strokes of its usual picture, and the minus the middle one |
| SevenSegment.CommandCodes | lib/my_7_segment.c:26-28 | the command codes the driver uses do what the data sheet says |
| SevenSegment.Segments.ChipShowsCells | lib/my_7_segment.c:51-59 | with the bus open the four digits stand at the addresses the display reads |
| SevenSegment.PartialDone | lib/my_7_segment.c:167-179 | when the digit loop ends, every cell or every digit is written, and the minus fits just left of them |
| SevenSegment.Segments.MajAffichage | lib/my_7_segment.c:51-59 | the chip's memory is the buffer, two bytes a word |
| SevenSegment.Segments.EnvoyerCommande | lib/my_7_segment.c:41-46 | the chip carries out the command if the bus is open, and nothing happens otherwise |
| SevenSegment.Segments.Luminosite | lib/my_7_segment.c:88-92 | the brightness, held between 0 and 15; the rest of the mode stays |
| SevenSegment.Segments.Init | lib/my_7_segment.c:64-83 | opening the bus ends running, lit at full brightness, blank and mirrored; without a bus nothing changes |
| SevenSegment.Segments.Effacer | lib/my_7_segment.c:97-103 | the whole buffer is 0 |
| SevenSegment.Segments.EcrireChiffre | lib/my_7_segment.c:108-119 | one digit, its decimal point kept; bad arguments change nothing |
| SevenSegment.Segments.Decimal | lib/my_7_segment.c:124-136 | one decimal point and nothing else |
| SevenSegment.Segments.DeuxPoints | lib/my_7_segment.c:141-148 | the colon and nothing else |
| SevenSegment.Segments.AfficherNombre | lib/my_7_segment.c:153-180 | low four digits of the magnitude, right-aligned, minus just left of them if there is room, for every int but the least |
| SevenSegment.Segments.Cleanup | lib/my_7_segment.c:185-200 | blank, on standby and off, then closed |
| Screen.BorderAndCellsTile | lib/my_ncurses.c:38-140 | border and cells share no position and cover the board |
| Screen.LinesJoin | lib/my_ncurses.c:38-101 | a line character has an arm towards a neighbour exactly when that neighbour is on a line |
| Screen.ArmsDecide | lib/my_ncurses.c:38-101 | so the arms settle every corner, tee, crossing and stroke |
| Screen.CellsAreDisjoint | lib/my_ncurses.c:106-140 | cells do not overlap |
| Screen.Window.constructor | lib/my_ncurses.c:20-29 | opposite margins differ by one at most; from 37 rows and columns on the board lies on the screen |
| Screen.Window.HorizontalLine | lib/my_ncurses.c:41-50 | one line of the board, ends and crossings in place, nothing else |
| Screen.Window.VerticalLines | lib/my_ncurses.c:91-101 | the vertical strokes and nothing else |
| Screen.Window.DrawGrid | lib/my_ncurses.c:38-104 | writes exactly the positions whose offset row or column is a multiple of 9, with the right character, and shows the screen |
| Screen.Window.DisplayPattern | lib/my_ncurses.c:106-122 | the picture fills exactly its cell |
| Screen.Window.ClearCell | lib/my_ncurses.c:124-140 | blanks exactly its cell |
| Screen.Window.ClearAllCells | client.c:197-202 | all cells blank; border and surroundings stay |
| Screen.Window.Refresh | lib/my_ncurses.c:142-144 | the player is shown the screen as it is |
| Buttons.SinglePress | lib/my_matrice_btn.c:64-71 | a button alone reads as its number, and its board place is its row and mirrored column |
| Buttons.PositionRoundTrip | lib/my_matrice_btn.c:86-97 | numbers and board places correspond one to one |
| Buttons.ReadingIsUnique | lib/my_matrice_btn.c:41-81 | a reading is determined by what is held |
| Buttons.ReadingPrefers | lib/my_matrice_btn.c:41-81 | of several buttons the upmost row is read, and in it the highest number |
| Buttons.Keypad.Lire | lib/my_matrice_btn.c:41-81 | the scan reports the first held button in scan order, or 0 iff none; all rows end high |
| Buttons.Keypad.ObtenirPosition | lib/my_matrice_btn.c:86-97 | row and column of a number, or -1, -1 |
| Buttons.Keypad.AttendreAppuiTimeout | lib/my_matrice_btn.c:102-118 | the first button seen within the time limit, 0 only once the limit is reached |
| Buttons.Keypad.AttendreRelacheTimeout | lib/my_matrice_btn.c:139-155 | 1 at the first scan without a button within the limit, 0 only once it is reached |
| Game.GlyphsAreDistinct | formes.c:2-36 | no two glyphs agree even on their first and fourth lines |
| Game.GlyphsAreAsDrawn | formes.c:2-36 | each line of the sixteen glyphs is as drawn |
| Game.PixelsDetermineLine | lib/jeu.c:414-423 | the conversion to characters is injective on bytes |
| Game.ConvertirForme | lib/jeu.c:414-423 | 'x' for a set bit, blank otherwise, leftmost bit first |
| Game.AfficherGrillePredefinie | lib/jeu.c:384-412 | for any sixteen glyph numbers, every cell shows its glyph and the border stands; two pictures are shown, the bare grid and the board; the last cell of the target is returned, -1 if there is none |
| Game.PeindreForme | lib/jeu.c:395-400 | the next cell shows its glyph, the cells painted before and the border stay |
| Game.PeindreCase | lib/jeu.c:399-400 | painting one cell leaves border and other cells alone |
| Game.CellLooksLikeTarget | lib/jeu.c:384-423 | for any sixteen glyph numbers, the cell at a button's place shows the picture on the LED matrix iff it holds the target |
| Game.RightButtonShowsTarget | lib/jeu.c:384-423 | for every permutation and target, one button answers correctly iff the cell at its place shows the picture on the LED matrix |
| Touch.HeldMeansUnbroken | lib/jeu.c:168-194 | a second is accumulated iff some unbroken stretch of touched samples spans it |
| Touch.HeldIsNotNegative | lib/jeu.c:183-188 | with a running clock the accumulated time is never negative |
| Touch.BarIsPrefix | lib/jeu.c:196-201 | the '#' cells are a prefix of min(16, floor(16 t)) cells |
| Touch.DessinerBarre | lib/jeu.c:196-201 | exactly the sixteen cells of the second row are drawn |
| Touch.AttendreContactTactile | lib/jeu.c:139-207 | returns at the first pass at which an unbroken contact spans a second; the first row invites, the bar shows the contact |
| Touch.Inviter | lib/jeu.c:145-154 | the invitation on the first row and the empty bar on the second |
| ClientProgram.Chronometre | client.c:153-183 | stops at the first button or at ten seconds; at every pass the digits show first the tenths of the pass before, then its own, and nothing else changes that the player can see |
| ClientProgram.EveryPass | client.c:153-183 | pass by pass: the buttons looked at, the same screen, LED matrix and line, and the tenths on show |
| ClientProgram.LireChoix | client.c:251-256 | stops at the first scan of button 1 or 2, and nothing changes meanwhile |
| ClientProgram.RecevoirPartie | client.c:102-128 | ready, start, shape, order as the protocol's client does them; gives up on a wrong start byte |
| ClientProgram.EchangerResultats | client.c:224-234 | answer, time and results as the protocol's client does them |
| ClientProgram.EnvoyerChoix | client.c:251-268 | the choice sent is that of the first press of button 1 or 2 |
| ClientProgram.Montrer | client.c:133-138 | after showing the round, the answer is the number of exactly the button whose cell looks like the LED matrix |
| ClientProgram.Chercher | client.c:134-203 | show, time, clear: the bare grid, the board and the cleared board are shown; at every pass of the chronometer the board is on the screen and the target on the LED matrix, and these settle which button is right |
| ClientProgram.Repondre | client.c:134-268 | the answer is the first button seen, its time the clock reading after that pass; it counts as correct iff the cell at its place on the board shown looked like the LED matrix; the verdict follows; the choice is the first press in the menu |
| ClientProgram.WhatIsSeenWhen | client.c:134-256 | while the clock runs the board is shown, the target lit and nothing answered; at the menu the answer has been sent and the results received |
| ClientProgram.Manche | client.c:89-269 | nothing is sent before a second of touch; then one round is exactly the nine acts of the protocol's client, whatever the server sends, with that answer and that choice, and the journal is that of the board and then of the menu |
| ClientProgram.Jouer | client.c:88-269 | successive full rounds, each answered and ended as the player pressed, until the first 'n' |
| ClientProgram.NoPressIsTooSlow | client.c:163-222 | without a press the time sent is ten seconds or more and the answer is wrong |
| ClientProgram.HundredTenths | client.c:153-172 | the clock stops at ten seconds, ten tenths to the second |
| ClientProgram.WhichVerdict | client.c:183-222 | too slow iff the final clock reading is ten seconds or more; otherwise success iff the button's cell holds the shape, wrong iff it holds another |
| ClientProgram.EveryAnswerIsPossible | client.c:153-183 | every button at every time, under ten seconds too, is the answer of some admitted round |
| ClientProgram.EachVerdictIsReached | client.c:205-222 | on one board, rounds that end in success, in a wrong answer, and in a correct press that is too slow |

## Left out

- Socket set-up, port parsing, printing and delays: environment, no logic of the game.
- Partial receives, failing sends and SIGPIPE: see the assumptions above.
- Refused connections: accepted and closed in one step of the protocol; they never become a slot.
- Connections still waiting to be accepted when the server ends, and clients after the server has closed them: gone.
- Server.Server.AttendrePressionTouch: the barrier may spin forever; here some select() fails in the end, after any number of turns, so every finite run of the loop is covered.
- Server.Server.Jouer: the main loop is cut off after a given number of rounds, which may be any number.
- ClientProgram.Jouer: the main loop is cut off when the player has no more rounds in store, or when the samples of the touch sensor run out.
- Touch.AttendreContactTactile: the loop is cut off when the samples run out.
- World.World.Recv: the wait is one step that takes whatever the players do first; that it can end is proved.
- accept() failing while the server waits for its very first player: the loop only tries again.
- Distribution of rand() and seeding: draws are any values in range; the bijection is the claim.
- Floating point: times are whole microseconds, tenths are whole division.
- Lcd.Display.Ecrire: a string so long, from below the display, that the driver looks for the address of a fifth row; the table of row addresses has four.
- SevenSegment.Segments.AfficherNombre: the least int is excluded, because negating it has no meaning in C.
- Buttons held down together are read through ideal contacts: no current flows back through a third button.
- matrice_btn_attendre_appui and matrice_btn_attendre_relache: the loops with a limit, without the limit.
- Message texts, peripheral set-up and clean-up order, the local one-player game: the same loops and branches as the client, without the server.
- lib/my_touch.c, local.c, serveur.h, client.h: wrappers and headers without logic.
