# Screen Worms in Dafny

Screen Worms is a multiplayer game over UDP. A server keeps an append-only log of events per game and broadcasts
it; every client puts the log together again from datagrams that may be lost, repeated, delayed or reordered, and
forwards the events to a GUI over TCP. This project models the server, the wire format and the client, and proves
what the protocol is for: what the GUI is shown is, game by game, a prefix of what the server logged.

The model has three layers.

* *Values.* `Messages`, `Crc32`, `Packing`, `Names`, `PlayerList`, `MessageQueue`, `Game`, `Server` and `Client`
  define the state and the operations as functions. They are the specifications of the layer below.
* *The code's own form.* `MQManagers.MQManager`, `GameManagers.GameManager`, `ServerProcess.Process`,
  `ClientProcess.Process`, `TcpBuffer.TcpSocket`, `Rng.RNG` and the methods of `Codec`, `Crc32`, `Packing`, `Names`
  and `PlayerList` are the classes and loops of the program, each proved equal to its function.
* *Theorems.* `Grammar`, `GameInvariant`, `GameTurns`, `GameStart`, `GameMessages`, `GameQueue`, `BoardSafety`,
  `Tracks` and `Deaths` say what every operation of the game manager keeps; `Rules`, `WhoMoved`, `Paths` and `Starts`
  what turns and starts do, from the rules of the game alone; `Steering`, `Readiness`, `Cursors`, `Watching`,
  `Departures` and `Silence` what the datagrams of the clients do, over whole runs; `PlayerQueues` and `QueueRuns` when
  players keep a queue; `Fairness`, `Drain`, `Blocked`, `Serving` and `Logs` what the queue guarantees; `Cycle` and
  `Draws` where game numbers come from and when they repeat; `Wire` what the datagrams look like byte by byte,
  `Division` what the checksum is and `Burst` what it buys; `Reassembly` and `Rendering` what the client makes of
  genuine datagrams, `Verdicts` of any datagram, and `Screen` what the GUI can read from its text; `EndToEnd` puts
  server, network and client together and proves the main theorems over all runs, and `Deliveries` states the client's
  part by the delivered datagrams alone. `Scenario`, `Lobby`, `LostQueues` and `TwoGames` are concrete runs that reach
  the states the facts below are about.

The network of `EndToEnd` is the set of all datagrams ever sent; any of them may be delivered at any moment, any
number of times, into a receive buffer with arbitrary leftover bytes. The server in it hears arbitrary bytes from
arbitrary addresses, loses connections at any moment, and may or may not succeed in sending.

Where logs are compared across games the theorems assume that no game number was drawn twice
(`EndToEnd.NoNumberTwice`): the code routes events by that number alone. A game draws one number for itself and three
for each player, and the generator's cycle is computed to be exactly 2147483645 draws long (`Cycle.OutputsAgree`); so
two games have the same number exactly if the draws of the games from one to the other make up whole cycles, and the
assumption holds of every run of at most 2147483645 / 76 actions (`EndToEnd.NumbersAreDistinct`,
`EndToEnd.PrefixAgreementWithinCycle`). The exception is a seed divisible by the modulus, 0 or 4294967291: then every
game after the first has number 0, and six datagrams are enough for three games (`TwoGames.ThreeGames`).

Facts about the code that a reader may not expect, each with its exact condition and a run in which it happens:

* Acknowledgements are ignored while another game waits, so a client that lags then blocks the next game for as long
  as it is not dropped, whatever it and the others do (`Blocked.BlockedUntilDropped`, `Blocked.StuckHappens`).
  Sending alone empties the queue exactly when no game waits, or one waits and nobody lags
  (`Drain.DrainsExactlyWhenDrainable`).
* A client that enters a game by a datagram without NEW_GAME never learns its players, and gives up exactly at the
  next datagram of that game with a PIXEL or PLAYER_ELIMINATED event (`EndToEnd.GivesUpExactlyWhen`,
  `Deliveries.GaveUpExactlyWhen`). If NEW_GAME reaches such a client in a datagram of its own, it passes the line on
  with the players of an earlier game (`Rendering.BlindNewGame`). The server sends NEW_GAME alone exactly if the list
  of players leaves no room for the next event (`Serving.SentAloneExactlyWhen`). Both fates are reached by delaying one
  datagram (`TwoGames.BlindClient`).
* Not every listed player has a queue, although acknowledging looks it up unchecked. Three operations take it: losing
  a connection, the end of a game, and a new name in a game that is already full; for each the exact condition is
  given (`PlayerQueues`, and `Deaths.EndsExactlyWhen` for whether a turn ends the game) and reached (`LostQueues`),
  and `QueueRuns.QueuedExactlyWhen` says of a whole run when every listed player always has one.
* Between games, the loss of any address that is not a watcher's makes every player press a key again, even if that
  address never joined (`Readiness.StartsOver`, `Departures.WhoIsLost`); readiness lasts otherwise until the game is
  over (`Readiness.RunReady`).

The limit on a datagram is the code's 550 bytes (`common/messages.h:11`), not the 548 of the assignment text, and
`Grammar.NewGameSize` shows that the largest event fills it exactly.

## Model

| member | source | states |
|---|---|---|
| EndToEnd.PrefixAgreement | client_src/client.cpp:53-105 | after any run, everything handed to the GUI is, game by game, a prefix of the server's log of that game, and each game is one block that is never resumed |
| EndToEnd.PrefixAgreementWithinCycle | client_src/client.cpp:53-105 | the same with nothing assumed of the numbers, for any seed but a multiple of the modulus and any run of at most 2147483645 / 76 actions |
| EndToEnd.HonestServerIsBelieved | client_src/client.cpp:25-105 | after any run the GUI text is exactly the lines of the events handed over, game by game: each game entered by a datagram with NEW_GAME with its own names, of any other at most its NEW_GAME; and the client has given up only in a game of the latter kind |
| EndToEnd.HandsOverWhatArrived | client_src/client.cpp:98-104 | after any run, a client that has not given up has handed over its current game's log exactly up to the first event it does not hold |
| Deliveries.HandsOverWhatWasDelivered | client_src/client.cpp:53-105 | after any run, told by the delivered datagrams alone: the client has handed over the log of the game heard of last exactly up to the first event that none of them has brought, the first datagram of a game counting only if it holds NEW_GAME |
| Deliveries.GaveUpExactlyWhen | client_src/client.cpp:25-89 | after any run the client has given up if and only if some delivered datagram needed players of the game heard of last when that game's first datagram had no NEW_GAME |
| Deliveries.ProcessHeeds | client_src/client.cpp:62-105 | a message leaves the client with exactly the events the messages so far amount to |
| Steering.RunSteered | server_src/game.cpp:118-164 | in any run every listed player has the direction of the last decodable datagram with its name from its own address, whatever else was sent, lost, moved or started |
| Readiness.RunReady | server_src/game.cpp:118-164 | in any run a listed player is ready if and only if it pressed left or right between games since the last game was over and everybody last had to start over |
| Readiness.StartsWhenAllSaidReady | server_src/game.cpp:157-239 | in any run a game is on as soon as two or more are listed and all of them have said so, and none starts without that |
| Silence.ExpiredExactlyWhen | server_src/server.cpp:69-84 | in any run a client is taken for gone if and only if its last datagram is more than 2000000 microseconds old |
| Screen.GuiReadsTheGames | client_src/client.cpp:98-104 | in any run a reader of the GUI text that knows only lines, spaces and decimal numbers gets back exactly the events handed over, game by game |
| EndToEnd.GivesUpExactlyWhen | client_src/client.cpp:25-60 | a genuine datagram makes the client give up if and only if it is of the current game, that game was entered without NEW_GAME, and it holds an event that needs players |
| EndToEnd.EveryGameIsLegal | server_src/game.cpp:193-288 | after any run, every game's log obeys the grammar and all but the one being played are over |
| EndToEnd.NumbersAreDistinct | server_src/game.cpp:241-242 | in any run two games have the same number if and only if they come whole cycles of the generator apart, never within one cycle of draws; with a seed divisible by the modulus if and only if there are three games, or two for seed 0 |
| EndToEnd.RunDraws | server_src/game.cpp:241-260 | in any run the draws are exactly one for each game and three for each of its players, at most 76 per action, and each game has the number drawn after those of the games before it |
| EndToEnd.StepDraws | server_src/server.cpp:86-118 | every action draws nothing, or starts one game with the next number and draws what that takes |
| EndToEnd.RunOk | server_src/server.cpp:21-84 | every state of every run satisfies the invariants of server, network and client |
| EndToEnd.StepOk | server_src/server.cpp:86-118 | each action of server, network or client keeps those invariants |
| EndToEnd.TakenIs | client_src/client.cpp:107-132 | whatever the receive buffer held before, a delivered datagram is processed as the message that was sent |
| Crc32.BitStepLinear | common/crc32.cpp:13-19 | one bit step distributes over exclusive or |
| Crc32.BitStepInjective | common/crc32.cpp:13-19 | one bit step loses nothing |
| Crc32.TableEntry | common/crc32.cpp:11-20 | the loop over the bits of a table index is eight bit steps |
| Crc32.GenerateTable | common/crc32.cpp:5-24 | all 256 entries of the table are eight bit steps of their index |
| Crc32.TableStep | common/crc32.cpp:33-35 | eight bit steps equal one shift by a byte and one table look-up |
| Crc32.Crc32 | common/crc32.cpp:30-39 | the table-driven loop computes the bit-at-a-time reflected CRC-32 of every byte string |
| Crc32.RegisterInjective | common/crc32.cpp:33-35 | different registers stay different over equal data |
| Crc32.BurstChangesCrc | common/crc32.cpp:30-39 | two strings of one length that differ only within four consecutive bytes have different CRCs |
| Division.PolynomialIsGenerator | common/crc32.cpp:8 | the constant is x^32 + x^26 + x^23 + x^22 + x^16 + x^12 + x^11 + x^10 + x^8 + x^7 + x^5 + x^4 + x^2 + x + 1 without its highest term, bits reversed |
| Division.RemainderIsUnique | common/crc32.cpp:13-19 | a division of polynomials over the two-element field by that generator leaves one remainder |
| Division.StepIsRemainder | common/crc32.cpp:13-19 | a bit step multiplies by x and takes the remainder |
| Division.CrcExactlyWhen | common/crc32.cpp:5-39 | a number is the CRC of a byte string if and only if its complement is the remainder of the string, as a polynomial times x^32 with its first 32 bits complemented, by the generator |
| Burst.BurstCostsOnlyTheTail | common/messages.cpp:59-78 | changing up to four consecutive bytes of record k between event_no and the end of its data makes the decoder return exactly the records before it |
| Messages.DecodeEvent | common/messages.cpp:59-91 | an accepted record takes at least 13 bytes and stays within the datagram |
| Messages.DecodeEncodedEvent | common/messages.cpp:59-115 | a record decodes to the event it encodes, wherever it stands in the buffer |
| Messages.DecodeIntact | common/messages.cpp:238-249 | intact records are decoded one by one whatever follows them |
| Messages.MessageRoundTrip | common/messages.cpp:231-261 | decoding an encoded server message gives it back, whatever the buffer held behind it |
| Messages.DecodedFieldFits | common/messages.cpp:153-164 | the names of a decoded NEW_GAME fit the fixed array they are copied to |
| Messages.ClientMessageRoundTrip | common/messages.cpp:30-53 | decoding an encoded client message gives it back |
| Messages.ClientMessageOnlyEncodings | common/messages.cpp:30-53 | every accepted byte string is the encoding of the valid message it decodes to |
| Wire.EncodedExactlyWhen | common/messages.cpp:93-171 | the encoding of an event is the one byte string with a length, number, type 0 to 3, data and checksum in big-endian order at their places, and no byte too many |
| Wire.EncodedMessageOf | common/messages.cpp:252-261 | what the server sends has the format of its message |
| Wire.DecodedExactlyWhen | common/messages.cpp:59-250 | a datagram decodes to a message if and only if it has 4 to 550 bytes and that message's format, whatever the buffer held behind it; a record of an unknown type is an event, a damaged one ends the message, data beyond what a type needs are ignored |
| Wire.ClientDecodedExactlyWhen | common/messages.cpp:30-45 | a byte string decodes to a client message if and only if it is its session, direction 0 to 2, number and a name of at most 20 characters from 33 to 126 |
| Wire.ClientEncodedExactlyWhen | common/messages.cpp:47-53 | the encoding of a client message is the one byte string with its format |
| Codec.EncodeEventData | common/messages.cpp:102-110 | the data of each kind of event is written in place, and nothing else changes |
| Codec.EncodeEventTo | common/messages.cpp:93-115 | exactly the encoded size is written: length, number, type, data and checksum |
| Codec.EncodeServerMessage | common/messages.cpp:252-261 | the loop writes the encoding of the message into the 550-byte buffer and returns its length |
| Codec.DecodeEventFrom | common/messages.cpp:59-91 | one record is decoded, rejected or found damaged as specified |
| Codec.DecodeServerMessage | common/messages.cpp:231-250 | the decoding loop ends and computes the specified result |
| Codec.EncodeClientMessageTo | common/messages.cpp:47-53 | the client's message is written as specified |
| Packing.FromEvents | common/messages.cpp:263-280 | the loop picks the greedy prefix of the log from the cursor on |
| Packing.FittingIsMaximal | common/messages.cpp:263-280 | what is picked fits in a datagram and one event more would not |
| Packing.FittingIsLongest | common/messages.cpp:269-277 | no prefix that fits is longer |
| Packing.CutCovers | common/messages.cpp:263-280 | repeated picking covers the log exactly once in order, in non-empty datagrams that are full but for the last |
| Packing.ShorterLogFewerChunks | common/messages.cpp:263-280 | starting later never needs more datagrams |
| Packing.CutIsOptimal | common/messages.cpp:263-280 | no split of the log into datagrams uses fewer |
| Names.IsValidPlayerName | common/misc.cpp:29-40 | accepts exactly the strings of at most 20 printable characters |
| Names.SortSorts | common/messages.cpp:199-201 | the model of std::sort orders its input and permutes it |
| Names.SortedCheck | common/messages.cpp:199-210 | sorting, removing repetitions and comparing accepts exactly the strictly increasing lists |
| PlayerList.MakeNewGame | common/messages.cpp:134-151 | the two loops produce every name followed by a zero byte |
| PlayerList.ZerosToSpaces | common/messages.cpp:176-183 | a field with a space is rejected, otherwise zeros become spaces |
| PlayerList.ReadNames | common/messages.cpp:190-197 | the loop reads all words, or fails if one is not a valid name |
| PlayerList.IsSortedList | common/messages.cpp:199-210 | the check holds exactly of strictly increasing lists |
| PlayerList.ParsedPlayers | common/messages.cpp:173-212 | the whole function: error or the numbered names |
| PlayerList.PlayersRoundTrip | common/messages.cpp:134-212 | a strictly increasing list of valid names is read back exactly as written |
| PlayerList.ParsedAreNames | common/messages.cpp:173-212 | whatever is accepted is a strictly increasing list of valid non-empty names |
| PlayerList.NumberedInOrder | common/messages.cpp:190-197 | number i stands for the i-th name and there are no other numbers, for up to 256 names |
| PlayerList.EventToMessageForGui | common/messages.cpp:282-303 | the line for the GUI, with its loop over the players |
| Screen.DecimalReads | common/messages.cpp:287-296 | a number is shown in digits, without leading zeros, that read from left to right give it back |
| Screen.ReadEvent | common/messages.cpp:282-303 | the line of an event, added to any text, is read back as the event: NEW_GAME with board and names in order, PIXEL with place and name, PLAYER_ELIMINATED with the name; nothing for the others |
| Screen.RosterShown | common/messages.cpp:286-294 | of a legal log NEW_GAME is read back as its board and its announced names |
| Rng.RNG.GenerateNext | common/rng.h:13-17 | returns the current value, advances, and never overflows 64 bits |
| Rng.OutputIsPower | common/rng.h:13-17 | output i is the seed times the i-th power of the multiplier |
| Rng.StepUndone | common/rng.h:13-17 | multiplying by the inverse of the multiplier undoes a step |
| Rng.StepInjective | common/rng.h:13-17 | different values have different successors |
| Rng.ZeroExactlyWhen | common/rng.h:13-17 | an output after the seed is 0 if and only if the seed is divisible by the modulus |
| Cycle.LargeFactorIsPrime | common/rng.h:13-17 | 22605091, a factor of the length of the cycle 5 * 19 * 22605091, is prime |
| Cycle.WholeCycleReturns | common/rng.h:13-17 | 2147483645 draws lead back to where they began |
| Cycle.NoReturn | common/rng.h:13-17 | no fewer draws do, from any value but 0 |
| Cycle.OutputsAgree | common/rng.h:13-17 | outputs after the seed agree if and only if they are a whole number of cycles apart |
| Cycle.OutputsDistinct | common/rng.h:13-17 | within one cycle all outputs differ, the seed included |
| Cycle.SeedAgrees | common/rng.h:13-17 | the seed itself comes again exactly after whole cycles, and only if it is less than the modulus |
| Draws.SameNumberExactlyWhen | server_src/game.cpp:241-260 | two games have the same number if and only if the draws between them are whole cycles |
| Draws.DistinctWithinCycle | server_src/game.cpp:241-242 | game numbers drawn within one cycle are distinct |
| Draws.StartDraws | server_src/game.cpp:241-281 | the start of a game draws its number and then three for each player, even if it ends the game |
| Draws.ZeroSeedRepeats | server_src/game.cpp:241-242 | with a seed divisible by the modulus two games have the same number if and only if neither is the first, or the seed is 0 |
| Draws.HandleMessageDraws | server_src/game.cpp:241-260 | a message draws nothing, or starts one game, whose number is the very next draw, and draws three more for each player |
| Rng.FirstRepeatIsOutputOne | common/rng.h:13-17 | if two outputs after the seed agree, output 1 is repeated no later |
| TcpBuffer.TcpSocket.WriteData | common/sockets.cpp:97-101 | bytes sent followed by the buffer are all bytes given |
| TcpBuffer.TcpSocket.FlushOutgoing | common/sockets.cpp:107-134 | the same over every partial or failed write, with the shift in place |
| TcpBuffer.TcpSocket.HasAvailableLine | common/sockets.cpp:173-175 | the counter tells whether a newline is buffered |
| TcpBuffer.TcpSocket.FindNewline | common/sockets.cpp:137-142 | the unbounded scan ends, at the first newline |
| TcpBuffer.TcpSocket.Readline | common/sockets.cpp:136-171 | lines returned followed by the buffer are all bytes read; a line comes back only if it was buffered before |
| TcpBuffer.LinesAreDetermined | common/sockets.cpp:136-171 | the lines depend only on the bytes received, not on how they were cut up |
| MessageQueue.SomeonePending | server_src/game.cpp:45-56 | when something can be sent the rotation meets a client with something to receive |
| MQManagers.MQManager.ScheduleEvent | server_src/game.cpp:5-19 | the fields become `MessageQueue.Schedule` of the old state: the event goes to the game on the air, to a waiting one, or to a new one |
| MQManagers.MQManager.HasPendingMessagesForCurrentGame | server_src/game.cpp:21-28 | the loop over the cursors decides whether somebody lags |
| MQManagers.MQManager.Empty | server_src/game.h:32-34 | true exactly when nobody lags and no game waits |
| MQManagers.MQManager.SwitchGames | server_src/game.cpp:31-43 | the fields become `MessageQueue.Advance` of the old state: the next game goes on the air, its events are numbered and all cursors restart |
| MQManagers.MQManager.GetNextMessage | server_src/game.cpp:30-57 | the result is `MessageQueue.NextMessage` and the fields become `MessageQueue.Served` of the old state: the round-robin loop ends and returns the next datagram of the first client that lags |
| MQManagers.MQManager.AckEvents | server_src/game.cpp:59-64 | the fields become `MessageQueue.Ack` of the old state: ignored while a game waits, otherwise the cursor moves, at most to the end of the log |
| MQManagers.MQManager.DropQueue | server_src/game.cpp:66-78 | the fields become `MessageQueue.Drop` of the old state: cursor and place in the schedule are gone |
| MQManagers.MQManager.AddQueue | server_src/game.cpp:80-87 | the fields become `MessageQueue.Add` of the old state: a new client goes to the back with a bounded cursor; a known one is left alone |
| Cursors.MessageCursors | server_src/game.cpp:59-172 | a message moves nobody's cursor but its sender's, and that exactly so: whoever joins, or comes back in a newer session, starts at the smaller of its number and the length of the log; whoever is known moves there unless a game waits |
| Cursors.ReceiveCursors | server_src/server.cpp:21-47 | so does any datagram that a running server receives; one that does not decode changes nothing in the game or the queue |
| Cursors.SendingMoves | server_src/server.cpp:49-67 | a datagram moves its recipient on by the events in it, and nobody if the system did not take it |
| Cursors.GetsTheRest | server_src/game.cpp:30-64 | with no game waiting, repeated sending serves a client exactly the events from its cursor on, in order |
| Cursors.NewcomerGetsTheRest | server_src/game.cpp:80-87 | so whoever joins by asking for the events from number n on is sent exactly those |
| Fairness.StepValid | server_src/game.cpp:5-87 | every queue operation keeps the schedule a permutation of the clients without repetition, every cursor within the log, and the log numbered by place |
| Fairness.SendMoves | server_src/game.cpp:45-56 | where a send takes every client of the schedule |
| Fairness.PendingMovesForward | server_src/game.cpp:45-56 | a client with something to receive is served or moves strictly forward |
| Fairness.OthersMoveForward | server_src/game.cpp:5-87 | no other operation moves a client back, except its own removal |
| Fairness.BoundedOvertaking | server_src/game.cpp:5-87 | over any run of queue operations a client at position p that lags waits for at most p datagrams |
| Drain.SendWhenCaughtUp | server_src/server.cpp:49-67 | with no game waiting every send lowers the sum of what is outstanding |
| Drain.DrainsWhenCaughtUp | server_src/server.cpp:49-67 | so at most that many sends leave every cursor at the end of the log |
| Drain.StuckForever | server_src/game.cpp:59-64 | with somebody lagging and a game waiting, no number of the server's own sends moves any cursor |
| Blocked.BlockedStep | server_src/game.cpp:5-87 | while a game waits, an operation keeps a lagging client's cursor and the game on the air if and only if it does not drop that client |
| Blocked.BlockedUntilDropped | server_src/game.cpp:5-87 | so over any run of operations, acknowledgements included, the client blocks the next game all along if and only if the run does not drop it |
| Blocked.NewGameBlocks | server_src/game.cpp:5-19 | the first event of a new game makes the queue stuck if and only if somebody lags |
| Blocked.StuckHappens | server_src/game.cpp:5-87 | two clients, one game sent to one of them and the start of the next lead from the empty queue to a stuck one |
| Drain.DrainsExactlyWhenDrainable | server_src/game.cpp:30-64 | sending alone empties the queue if and only if no game waits, or one does and nobody lags |
| Serving.ServedInTime | server_src/game.cpp:45-57 | with no game waiting, repeated sending serves any client that lags its next part, and nothing touches its cursor before |
| Serving.FirstServed | server_src/game.cpp:30-57 | so it does with a game that waits when nobody lags, from the first event on |
| Serving.SentAloneExactlyWhen | common/messages.cpp:263-280 | the next datagram is NEW_GAME alone if and only if its recipient has acknowledged nothing and the names take more than 503 bytes (511 before an elimination), or nothing else is logged |
| Logs.ScheduleRefines | server_src/game.cpp:204-206 | an event of the game being played is appended to its log, numbered by its place, and to no other |
| Logs.OpenRefines | server_src/game.cpp:16-18 | the first event of a new game opens a log behind all others |
| Logs.AdvanceRefines | server_src/game.cpp:31-43 | going on the air moves a log unchanged |
| Logs.ServedRefines | server_src/game.cpp:30-57 | sending changes no log |
| Logs.OthersRefine | server_src/game.cpp:59-87 | acknowledging, dropping and adding change no log |
| Logs.MessageIsChunk | server_src/game.cpp:45-56 | what is sent is a run of consecutive events of one log that fits in a datagram |
| Grammar.Between | server_src/game.cpp:208-228 | inside a log only pixels and eliminations occur, numbered by place, on the board, of announced players; GAME_OVER only at the end |
| Grammar.NoRepetition | server_src/game.cpp:193-202 | nobody is eliminated twice or moves after it, and no pixel is announced twice |
| Grammar.FinishedLog | server_src/game.cpp:193-288 | a finished log is NEW_GAME, pixels and eliminations, GAME_OVER; of n players n - 1 are eliminated, exactly one is not |
| Grammar.LogBounded | server_src/game.cpp:253-275 | the board bounds the log far below 2^32 events |
| Grammar.NewGameSize | common/messages.h:35-47 | NEW_GAME fits a datagram, and with 25 names of 20 characters fills its 550 bytes exactly |
| Grammar.EventSendable | common/messages.cpp:117-132 | every event of a legal log is well formed and fits in a datagram of its own |
| GameInvariant.StruckCounted | server_src/game.cpp:193-197 | marking, counting and logging an elimination keeps counters, roster and log in agreement |
| GameTurns.EndGameOk | server_src/game.cpp:283-288 | with one survivor the game ends in a finished log and nobody who left is listed |
| GameTurns.EliminateOk | server_src/game.cpp:193-202 | an elimination keeps the invariant, whether or not it ends the game |
| GameTurns.EatPixelOk | server_src/game.cpp:338-343 | eating a free pixel on the board keeps the invariant |
| GameTurns.MovePlayerOk | server_src/game.cpp:306-344 | one player's move keeps the invariant |
| GameTurns.RunTurnOk | server_src/game.cpp:305-345 | a turn keeps the invariant, whoever dies in it |
| GameStart.NumberAllOk | server_src/game.cpp:247-250 | players are numbered by their place in the announced list |
| GameStart.EndsOnlyAtLast | server_src/game.cpp:253-276 | only the last placement can leave a single survivor |
| GameStart.StartGameOk | server_src/game.cpp:241-281 | a start logs NEW_GAME and exactly one pixel or elimination per participant in order, and at most then GAME_OVER |
| GameMessages.DropConnectionOk | server_src/game.cpp:174-191 | losing any connection at any time keeps the invariant |
| GameMessages.InsertPlayerOk | server_src/game.cpp:141-155 | a player who joins, also in the middle of a game, keeps it |
| GameMessages.HandleMessageOk | server_src/game.cpp:96-172 | any message from anybody keeps it, including one that starts a game |
| GameQueue.RunTurnFromAdvances | server_src/game.cpp:305-345 | a turn only appends to logs, and the queue still holds the logs |
| GameQueue.MaybeStartAdvances | server_src/game.cpp:230-281 | so does the start of a game |
| GameQueue.DropConnectionAdvances | server_src/game.cpp:174-191 | so does losing a connection; every watcher keeps a queue |
| GameQueue.HandleMessageAdvances | server_src/game.cpp:96-172 | so does any message; every watcher has a queue and no disconnected player is a watcher |
| GameQueue.DropConnectionForgets | server_src/game.cpp:174-175 | a lost client has no queue |
| PlayerQueues.DropLeavesPlayersQueued | server_src/game.cpp:174-191 | losing a connection leaves every player a queue if and only if it takes all players of that address off the list |
| PlayerQueues.EraseLeavesPlayersQueued | server_src/game.cpp:290-303 | erasing does if and only if nobody who stays shares an address with somebody who leaves |
| PlayerQueues.TurnLeavesPlayersQueued | server_src/game.cpp:305-345 | a turn does if and only if it does not end the game or addresses are not shared like that |
| PlayerQueues.MaybeStartLeavesPlayersQueued | server_src/game.cpp:230-281 | the start of a game always does |
| PlayerQueues.MessageLeavesPlayersQueued | server_src/game.cpp:96-172 | a message does if and only if it is not a new name that costs an older session of its address the queue but finds the list still full |
| Deaths.EndsExactlyWhen | server_src/game.cpp:305-345 | a turn ends the game if and only if the deaths in it, counted from the worms before it, leave fewer than two |
| QueueRuns.StepQueued | server_src/server.cpp:86-118 | the same for every action of a running server, by conditions on the state before it |
| QueueRuns.QueuedExactlyWhen | server_src/server.cpp:86-118 | in a run every listed player always has a queue if and only if each of its actions meets its condition |
| QueueRuns.AcknowledgedIsQueued | server_src/game.cpp:59-64 | what this is for: while every listed player has a queue, the unchecked look-ups of a message find one |
| LostQueues.LostWithConnection | server_src/game.cpp:174-191 | two players join from one address and its connection is lost: one stays listed without a queue |
| LostQueues.LostWithGame | server_src/game.cpp:290-303 | with whatever rounding of cosine and sine: a player's connection is lost in a game, its address joins again under another name, and the last player's death ends the game and takes the newcomer's queue |
| LostQueues.LostInCrowd | server_src/game.cpp:131-155 | with 25 players listed in a game, a newer session of an address under a new name costs that address its queue |
| BoardSafety.AliveCount | server_src/game.cpp:193-202 | between operations of a game the count is the number of participants alive, at least two |
| BoardSafety.EatenIsAnnounced | server_src/game.cpp:265-270 | the eaten pixels are exactly those announced, all on the board |
| BoardSafety.WormOnBoard | server_src/game.cpp:321-343 | a living worm is where its pixel says, and that pixel has been announced |
| Tracks.LastPixelMeans | server_src/game.cpp:220-223 | what the last pixel announced under a number is |
| Tracks.MoveTracked | server_src/game.cpp:306-344 | a move keeps every living worm on the last pixel announced under its own number |
| Tracks.MessageTracked | server_src/game.cpp:96-172 | so does any message, including one that starts a game |
| Tracks.RunTracked | server_src/server.cpp:86-118 | in every reachable state of a game every living participant is on the last pixel announced under its own number |
| BoardSafety.MoveFitsSixteenBits | server_src/game.cpp:330-331 | after a move of at most one pixel the conversion to 16 bits loses nothing |
| WhoMoved.MoveIsLogged | server_src/game.cpp:305-345 | what a move appends to the log, under the number whose announced name is the mover's: the pixel of its goal, nothing on its own pixel, or its death if the goal is outside or eaten; GAME_OVER follows exactly when two were alive |
| Rules.MovedToGoal | server_src/game.cpp:314-323 | a worm turns by the speed, right adds and left takes away modulo 360, and then adds the displacement of its new direction, each coordinate its own |
| Paths.TurnMovesAll | server_src/game.cpp:305-345 | a turn that leaves the game on takes every living worm, once, to its goal, where it lives on that pixel or has died, and leaves the others as they are |
| Paths.TurnIsLogged | server_src/game.cpp:305-345 | what a turn appends: player by player the pixel of its goal, nothing on its own pixel, or its death if the goal is outside or eaten, until the game is over |
| Paths.PathOfSurvivor | server_src/game.cpp:314-323 | after k turns each coordinate of a survivor is its start plus the sum of its own displacements, and its direction is k times the speed away, modulo 360 |
| Starts.StartIsDrawn | server_src/game.cpp:253-275 | the start of a game told by the outputs of the generator: the three draws after those of the players before it give each player its pixel, in whose middle it begins, and its direction, and it dies exactly if an earlier one took that pixel |
| Steering.MessageKeys | server_src/game.cpp:118-164 | after a message its sender is listed with the key it says, in the session in which it joined, and all others as they were |
| Departures.WhoIsLost | server_src/game.cpp:174-191 | the loss of a watcher leaves the players alone; of another address it marks its first player during a game, and between games takes just that player off the list and leaves nobody ready |
| Watching.MessageWatchers | server_src/game.cpp:96-116 | a nameless message makes a watcher of anybody who is no player, in its newest session; a named one costs its address the watcher exactly with an older session |
| Readiness.MessageMoods | server_src/game.cpp:118-172 | what any message makes of anybody's readiness |
| WhoMoved.LinesNameTheMover | common/messages.cpp:294-300 | the GUI lines of those events name the player that moved |
| WhoMoved.LinesNameThePlaced | server_src/game.cpp:253-276 | the k-th event of a game is the placement or elimination of the k-th player, and its GUI line names that player |
| GameManagers.GameManager.constructor | server_src/game.cpp:89-94 | a new game manager is in the initial state |
| GameManagers.GameManager.EliminatePlayer | server_src/game.cpp:193-202 | the fields become `Game.Eliminate` of the old state: mark, count in eight bits, log, and end the game below two |
| GameManagers.GameManager.EmitNewGameEvent | server_src/game.cpp:208-214 | the names are collected in order and announced |
| GameManagers.GameManager.EmitPixelEvent | server_src/game.cpp:220-223 | the pixel of the player is logged under its number |
| GameManagers.GameManager.EmitPlayerEliminatedEvent | server_src/game.cpp:225-228 | the elimination is logged under the player's number |
| GameManagers.GameManager.CanStartGame | server_src/game.cpp:230-239 | true exactly when all players are ready and there are at least two |
| GameManagers.GameManager.StartGame | server_src/game.cpp:241-281 | the fields become `Game.StartGame` of the old state: number, announce, place everybody, stop when the game is over |
| GameManagers.GameManager.PlaceOnePlayer | server_src/game.cpp:253-270 | the fields become `Game.PlacePlayer` of the old state: three draws place a player, who eats a pixel or dies |
| GameManagers.GameManager.EndGame | server_src/game.cpp:283-288 | the fields become `Game.EndGame` of the old state: log, stop, erase |
| GameManagers.GameManager.EraseDisconnectedPlayers | server_src/game.cpp:290-303 | the fields become `Game.EraseDisconnected` of the old state: two loops: nobody is ready, and those who left lose entry and queue |
| GameManagers.ErasingLeavesStaying | server_src/game.cpp:290-303 | erasing the collected names one by one leaves exactly the connected players, in order |
| GameManagers.GameManager.MoveOnePlayer | server_src/game.cpp:311-343 | the fields become `Game.MovePlayer` of the old state: turn, move by a displacement that may depend on position and direction, and die, stay or eat |
| GameManagers.GameManager.RunTurn | server_src/game.cpp:305-345 | the fields become `Game.RunTurn` of the old state: all players in order until the game is over |
| GameManagers.GameManager.DropConnection | server_src/game.cpp:174-191 | the fields become `Game.DropConnection` of the old state: queue, watcher or mark, and erasure between games |
| GameManagers.GameManager.DropOlderSessions | server_src/game.cpp:132-136 | the fields become `Game.DropOlder` of the old state: older sessions of the address are dropped |
| GameManagers.GameManager.HandleMessageFromWatcher | server_src/game.cpp:96-116 | the fields become `Game.HandleWatcher` of the old state: all five cases of a watcher's message |
| GameManagers.GameManager.HandleMessageFromPlayer | server_src/game.cpp:118-164 | the fields become `Game.HandlePlayer` of the old state: a player's message: known, of another address, new, or one too many |
| GameManagers.GameManager.HandleMessage | server_src/game.cpp:166-172 | the fields become `Game.HandleMessage` of the old state: an empty name is a watcher |
| Server.ReceiveOk | server_src/server.cpp:21-47 | arbitrary bytes from an arbitrary address keep all invariants and only append to logs |
| Server.ExpireAllOk | server_src/server.cpp:69-84 | so does a clean-up of any connections in any order |
| Server.TurnOk | server_src/server.cpp:101-105 | so does a turn |
| Server.SentOk | server_src/server.cpp:49-67 | so does a send, whether or not the system took it |
| Server.SentIsWellFormed | server_src/server.cpp:49-53 | every datagram of a running server can be encoded in the 550-byte buffer and is a part of one log |
| Server.RecipientIsKnown | server_src/server.cpp:55 | the address looked up for it is always there |
| Server.ServerDrains | server_src/server.cpp:49-67 | all that a running server has queued fits in datagrams, and sending alone empties its queue exactly under the stated condition |
| ServerProcess.Process.ReadMessageFromClient | server_src/server.cpp:21-47 | the fields become `Server.Receive` of the old state: note the time and the address, decode, handle or ignore |
| ServerProcess.Process.SendMessageToClient | server_src/server.cpp:49-67 | the fields become `Server.Sent` of the old state: encode the next datagram and acknowledge it only if it was taken |
| ServerProcess.Process.CleanupObsoleteConnections | server_src/server.cpp:69-84 | the fields become `Server.ExpireAll` of the old state: exactly the expired connections are dropped, each once, in some order |
| ServerProcess.Process.TakeTurn | server_src/server.cpp:101-105 | the fields become `Server.Turn` of the old state: clean up, then move everybody |
| ClientProcess.Process.ValidateEvent | client_src/client.cpp:25-51 | the verdict on every kind of event |
| ClientProcess.Process.ReadInEvents | client_src/client.cpp:53-60 | the fields become `Client.ReadIn` of the old state: events are kept under their number, the first copy wins, the first invalid one ends it |
| ClientProcess.Process.ProcessMismatched | client_src/client.cpp:62-89 | the fields become `Client.Mismatched` of the old state: an earlier game is ignored; a new one is entered and its NEW_GAME looked for |
| ClientProcess.Process.CountArrived | client_src/client.cpp:98-100 | the loop ends at the first number that has not arrived |
| ClientProcess.Process.SendToGui | client_src/client.cpp:101-104 | the fields become `Client.HandOver` of the old state: the events up to there go to the GUI in order |
| ClientProcess.Process.ProcessMessage | client_src/client.cpp:91-105 | the fields become `Client.Process` of the old state: the whole of one message |
| ClientProcess.Process.ReadMessageFromServer | client_src/client.cpp:107-132 | the fields become `Client.Take` of the old state: too long is dropped, undecodable ends the process, the rest is processed |
| Reassembly.ProcessOk | client_src/client.cpp:53-105 | one genuine message more: the output is still made of prefixes of logs, reaches as far as what has arrived allows, and no game is resumed |
| Reassembly.MessageArrives | client_src/client.cpp:53-60 | a message of the current game that is not refused leaves all its events with the client and loses none |
| Reassembly.NothingHeldBack | client_src/client.cpp:98-104 | what has been handed over reaches the first event that has not arrived |
| Reassembly.BlocksArePrefixes | client_src/client.cpp:98-104 | what the client's invariant means for the reader of its output |
| Rendering.LegalIsValid | client_src/client.cpp:25-51 | an event of a legal log passes validation unless it needs players and none are known |
| Rendering.ReadInAborts | client_src/client.cpp:53-60 | reading in genuine events fails exactly then |
| Rendering.FirstEventInforms | client_src/client.cpp:76-85 | NEW_GAME of a legal log is accepted by anybody and teaches board, names and number of players |
| Rendering.ProcessFaithful | client_src/client.cpp:91-105 | the exact condition for giving up; and whatever is made of the datagram, what has been told stays right |
| Rendering.FaithfulText | client_src/client.cpp:98-104 | what the client's invariant means for the text: the lines of the events handed over, with each announced game's own names |
| Rendering.BlindNewGame | client_src/client.cpp:54-58 | a client that entered a game blindly and gets a datagram holding only NEW_GAME passes on its line with the names known from earlier games, and learns nothing |
| Verdicts.ParsedExactlyWhen | common/messages.cpp:173-212 | a players field is accepted as a list of names if and only if it is those names, printable and strictly increasing, with zero bytes or other white space between them |
| Verdicts.GivesUpExactlyWhen | client_src/client.cpp:25-89 | any message, from whomever, makes the client give up if and only if it is of the current game or enters one by its first NEW_GAME, and holds an event that does not fit: a later NEW_GAME or one with fewer than two players, a pixel off the board, a player that is not there |
| Verdicts.TakeExactlyWhen | client_src/client.cpp:107-132 | any datagram makes it give up if and only if it has at most 550 bytes and is no message, or such a message |
| Verdicts.ProcessKeeps | client_src/client.cpp:53-89 | of a message that is taken all events are kept, the first copy of each number |
| TwoGames.BlindClient | client_src/client.cpp:25-105 | for any seed but 0 that places the first two players on one pixel, a run of honest processes: the client enters the second game blindly, and then gives up on that datagram repeated, or passes on the delayed NEW_GAME with the players of the first game |
| TwoGames.ThreeGames | server_src/game.cpp:241-242 | with a seed divisible by the modulus six datagrams are three games, two of which have the same number |
| TwoGames.SomeSeedsCollide | server_src/game.cpp:253-260 | 4294967291 on every board, and 135 on the smallest, place the first two players on one pixel |

## Left out

- Sockets, poll loops, timers, clocks, address look-up and the command line: only their effect is kept, as arbitrary bytes, counts, times and failures.
- Cosine, sine and rounding of floating-point numbers: a move is an arbitrary real displacement that depends on position and direction (`Game.Motion`), so rounded sums are covered, but not computed; only `BoardSafety.MoveFitsSixteenBits` and `LostQueues.LostWithGame` assume anything of it. Coordinates are reals.
- Messages.DecodeEvent: lengths are natural numbers, so the wrap-around of the record length near 2^32 is not modelled; neither is reading a header past the end of the receive buffer, since the decoder is modelled on the client's full 560-byte buffer.
- Crc32.TableEntry: the remainder of the table generator is kept in 32 bits instead of 64; its upper half is always zero.
- MQManagers.MQManager.AckEvents: a client without a queue is ignored; the code dereferences the end iterator there.
- MQManagers.MQManager.GetNextMessage: requires somebody to be scheduled; the code takes the front of an empty schedule when a game waits and nobody is connected.
- GameManagers.GameManager.DropOlderSessions: walks the names present when the loop starts; the code may erase the element its iterator stands on, and so may the loops of `startGame` and `runTurn` when a game ends.
- GameManagers.GameManager.EmitPixelEvent: a player without a number would be logged as number 0; the code dereferences the end iterator, and the invariant shows it never happens.
- ClientProcess.Process.SendToGui: the guard also asks for the event to be present, which the invariant shows it is.
- PlayerList.EventToMessageForGui: a number without a name is rendered as an empty name; the code dereferences the end iterator.
- ServerProcess.Process.SendMessageToClient: requires the next message to be encodable, which `Server.SentIsWellFormed` proves of a running server.
- Event numbers, cursors and game numbers are natural numbers; `Grammar.LogBounded` and the invariant keep them below 2^32, but the client's counters are not bounded for datagrams that no server sent.
- The game number currently broadcast is uninitialised in the code before the first game and `None` here; board size and names of a new client are zero and empty here.
- std::map, std::set and std::unordered_map are values: a sorted list for the players, maps and sets otherwise. Their iteration order is the key order for players and arbitrary elsewhere.
- EndToEnd.PrefixAgreement: assumes that no game number was drawn twice; what the code does after a repetition is not described.
- Liveness of the whole system: clients that stop listening, the client's own retransmissions and the choice of session numbers are not modelled beyond what the invariants use.
- The direction keys of the GUI, where the last key wins.
