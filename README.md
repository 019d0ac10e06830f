# ServerClientChat in Dafny

A model of the core of ServerClientChat, a console chat over TCP. A server
accepts clients, gives each a numeric default nickname and a console colour,
and keeps the online clients in a `ChatClientManager` — four parallel lists of
ids, nicknames, endpoint strings and colour codes. It relays chat lines of the
form `"<timestamp> <user> says: <message>"` and handles the commands
`nickname NAME`, `color NAME` and `get out`. After every change it sends a
`'#'`-separated roster, `UpdatingClientList:#count#id#endpoint#nickname#colour#…`.
A new client gets a three-part welcome: a nickname header, a seven-line banner
and the roster under `ServerSendingOnlineClients:`. The client rebuilds its
own manager from these texts, keeps a bounded history of coloured lines, and
sends each typed line shorter than 256 characters until a `get out` reaches
the server; a write that fails loses that line and the input loop goes on.

Modules, in dependency order:

- `Text`: the .NET string operations the protocol relies on. These are
  `String.Split`, ASCII `ToLower`, `Int32.ToString`/`Int32.Parse` for plain
  digits, `List.IndexOf` and `StartsWith`. It also has `Terminated` (each
  field followed by the separator) with its split lemmas.
- `ClientManager`: `ChatClientManager` as a class with four `seq` fields, and
  `Entries()`, which reads the four lists as rows.
- `RosterCodec`: the roster text, and the string-building loop that
  `CreateClientList`, `CloseClientConnection` and `SendOnlineClients` share.
- `ChatMessages`: the chat line of `OnMessageToClientEventArgs`.
- `ConnectedEvent`: `OnClientConnectedEventArgs`, meaning the values it
  captures and the three texts it writes.
- `ServerRules`: the server's pure rules. These cover refused nicknames,
  default nicknames, the colour table, the dispatch of a received message,
  and the texts of notices and replies.
- `Broadcast`: three specification functions for writing to several clients.
  - `Deliveries` and `PairDeliveries` have a try/catch per client.
  - `FanOut` is the chat event's invocation list, with no catch between
    handlers.
- `Server`: `ChatServer` as a class.
  - Its state is the manager, the registry of every client ever connected,
    the event subscriptions, and a log of the writes that reached a client.
  - One method per handler models one received message or one accepted
    connection.
  - It keeps the registry invariant `Consistent`.
- `Client`: `ChatClient` as a class with its manager, nickname, history and
  history colours. It also has the pure parsers and the send filter of the
  input loop.
- `Handshake`: round trips between the two ends.
  - The roster the server writes is read back by the client as exactly the
    server's rows.
  - The welcome burst is read back as the client's nickname, the banner and
    the roster.

Network failures are a parameter. Each step takes `failing`, the set of
client ids whose writes throw during that step. A failed write is then
handled the way the source handles it:

- A per-client catch skips that client.
- The chat event aborts the remaining handlers, and the sender is closed.
- A write outside any catch ends the process, which is modelled as
  `running := false`.

Timestamps (`DateTime.Now`) are a string parameter `ts` of each step.

## Model

| member | source | states |
|---|---|---|
| Text.Split | Client/ChatClient.cs:560 | at least one piece, and no piece holds the separator |
| Text.SplitLength | Client/ChatClient.cs:560 | there is one piece more than there are separators |
| Text.SplitTerminated | Client/ChatClient.cs:560 | splitting separator-terminated free-of-separator fields, followed by any tail, gives back those fields and then the tail's pieces |
| Text.SplitTerminatedAll | Client/ChatClient.cs:560 | a '#'-terminated field list splits into the fields plus one empty final piece |
| Text.TerminatedAppend | Server/ChatServer.cs:545-550 | terminating a concatenation is concatenating the terminated parts |
| Text.ParseNat | Client/ChatClient.cs:561-566 | Int32.Parse succeeds exactly on non-empty all-digit strings |
| Text.ParseNatToString | Client/ChatClient.cs:561-566 | parsing the printed form of a number gives the number back |
| Text.NatToStringInjective | Server/ChatServer.cs:632-646 | distinct numbers print as distinct numerals |
| Text.LowerCharIs | Server/ChatServer.cs:349 | ToLower maps a character to a given lower-case letter exactly when it is that letter or its capital |
| Text.IndexOf | Server/ChatServer.cs:488 | returns the first position holding the value, and None exactly when the value is absent |
| ClientManager.RemoveAt | NetworkComponents/ChatClientManager.cs:134-140 | List.RemoveAt: one element fewer, earlier ones unchanged, later ones shifted down by one |
| ClientManager.RemoveAtDistinct | NetworkComponents/ChatClientManager.cs:134-140 | removing a position from a list of distinct values leaves them distinct |
| ClientManager.RemoveAtUpdate | NetworkComponents/ChatClientManager.cs:134-140 | removing a position makes an earlier change to that position invisible |
| ClientManager.ZipRemoveAt | NetworkComponents/ChatClientManager.cs:134-140 | removing the same position from the four lists removes that row from the table |
| ClientManager.ChatClientManager.constructor | NetworkComponents/ChatClientManager.cs:40-46 | four empty aligned lists |
| ClientManager.ChatClientManager.AddClientData | NetworkComponents/ChatClientManager.cs:122-128 | appends id, name, endpoint and colour 7 to the four lists, i.e. one row at the end |
| ClientManager.ChatClientManager.RemoveAtIndex | NetworkComponents/ChatClientManager.cs:134-140 | removes position `index` from each list and so exactly that row; lists stay aligned |
| ClientManager.ChatClientManager.ClearLists | NetworkComponents/ChatClientManager.cs:145-151 | all four lists become empty |
| RosterCodec.RosterFields | Server/ChatServer.cs:547-550 | four fields per row |
| RosterCodec.RosterFieldsAt | Server/ChatServer.cs:549 | field 4k+j is field j (id, endpoint, nickname, colour) of row k |
| RosterCodec.RosterFieldsSeparatorFree | Server/ChatServer.cs:549 | well-formed rows produce no field containing '#' |
| RosterCodec.RosterMessageSplit | Server/ChatServer.cs:542-553 | a roster text splits on '#' into tag, count, every row's four fields in order, and one empty piece |
| RosterCodec.EntryText | Server/ChatServer.cs:549 | the group one row contributes is "id#endpoint#nickname#colour#" |
| RosterCodec.RosterStep | Server/ChatServer.cs:547-550 | one more loop iteration appends exactly the next row's group |
| RosterCodec.BuildRosterMessage | Server/ChatServer.cs:542-553 | the accumulation loop yields the roster text of the manager's rows under the given tag |
| ChatMessages.ChatLine | NetworkComponents/OnMessageToClientEventArgs.cs:43-46 | timestamp, " user", " says: " and the message in that order, 8 characters beyond the parts |
| ChatMessages.SpeakerTokens | Client/ChatClient.cs:541 | with a "date time" timestamp and a one-word speaker, word 2 of a chat line is the speaker and word 3 is "says:" |
| ConnectedEvent.NickNameMessageAsWritten | NetworkComponents/OnClientConnectedEventArgs.cs:84-88 | the header as written: tag and the captured position, each followed by '#' |
| ConnectedEvent.NickNameMessage | NetworkComponents/OnClientConnectedEventArgs.cs:84-88 | the corrected header: tag and the captured nickname, each followed by '#' |
| ConnectedEvent.BannerFieldsSeparatorFree | NetworkComponents/OnClientConnectedEventArgs.cs:93-96 | only the timestamp and the nickname are free text in the banner; the fixed lines hold no '#' |
| ConnectedEvent.WelcomeTextSplit | NetworkComponents/OnClientConnectedEventArgs.cs:93-96 | the banner splits into its seven segments, the third naming the nickname |
| ServerRules.ReservedNameAnyCase | Server/ChatServer.cs:349-352 | a name is refused as "server" exactly when it has six letters, each that of "server" in either case |
| ServerRules.CheckIfNameTaken | Server/ChatServer.cs:347-368 | true exactly for "server" in any case, a name with '#', or a current nickname |
| ServerRules.ServerNameReserved | Server/ChatServer.cs:349-352 | no valid nickname is the speaker name "Server" of the server's notices |
| ServerRules.NumeralIsValidNickname | Server/ChatServer.cs:632-646 | every default nickname (a numeral) is a valid nickname |
| ServerRules.FirstFree | Server/ChatServer.cs:636-642 | the least numeral in from..999 not in use, or None when all are in use |
| ServerRules.DefaultNickname | Server/ChatServer.cs:632-646 | the id's own numeral when free; always a non-empty numeral |
| ServerRules.DefaultNicknameFresh | Server/ChatServer.cs:632-646 | the default nickname is unused whenever any numeral below 1000 is unused |
| ServerRules.DefaultNicknameLeast | Server/ChatServer.cs:636-642 | when the id's numeral is taken, the default is the least free numeral |
| ServerRules.CreateNickName | Server/ChatServer.cs:632-646 | the search loop returns DefaultNickname |
| ServerRules.ColorCodes | Server/ChatServer.cs:418-479 | only the codes 1, 3-9, 11-15 can be chosen |
| ServerRules.ColorCodeInjective | Server/ChatServer.cs:418-479 | two accepted names never share a code |
| ServerRules.Classify | Server/ChatServer.cs:305-330 | a colour (rename) request exactly when the message has two words and word 0 lower-cases to "color" ("nickname"), with word 1 as argument; Quit exactly for "get out"; otherwise chat text, the unchanged message |
| ServerRules.QuitIsNoRequest | Server/ChatServer.cs:317-330 | "get out" is neither a colour nor a rename request, so it reaches the quit test |
| ServerRules.ClassifyRequestAnyCase | Server/ChatServer.cs:305-314 | the keywords are recognised in any letter case, followed by any one-word argument |
| ServerRules.ClassifyCommandText | Server/ChatServer.cs:305-330 | typing a command's text (one-word argument; chat text that is no request and not "get out") is dispatched as that command |
| ServerRules.RenameDecision | Server/ChatServer.cs:380-403 | accepted iff shorter than 18 and not taken; "taken" reply iff taken |
| ServerRules.AcceptedNameIsValid | Server/ChatServer.cs:380-392 | an accepted one-word name is valid, unused and shorter than 18 |
| Broadcast.DeliveriesMembership | Server/ChatServer.cs:237-250 | a client gets the broadcast exactly when it is online and its write does not throw |
| Broadcast.DeliveriesAppend | Server/ChatServer.cs:237-250 | delivery to later clients is independent of earlier ones |
| Broadcast.PairDeliveriesMembership | Server/ChatServer.cs:574-590 | a client gets the notice and the roster exactly when online and not failing |
| Broadcast.FanOutStopped | Server/ChatServer.cs:120-123 | once a handler has thrown, later subscribers change nothing |
| Broadcast.FanOutCompletes | Server/ChatServer.cs:120-123 | every handler runs exactly when no connected subscriber's write throws |
| Broadcast.FanOutMembership | Client/ChatClient.cs:230-236 | a line reaches only connected, non-failing subscribers, and all of them when every handler ran |
| Broadcast.FanOutAbort | Server/ChatServer.cs:120-123 | a throwing subscriber stops the event: nobody after it receives the line |
| Server.ConnectedAreOnline | Client/ChatClient.cs:232 | under the registry invariant, the clients whose connection reports Connected are exactly the online ids |
| Server.NewestCaptured | NetworkComponents/OnClientConnectedEventArgs.cs:47 | the online list is as long as the registry exactly when no client has left |
| Server.NumeralsCover | Server/ChatServer.cs:632-646 | a list holding every numeral below n has at least n elements |
| Server.FreeNumeral | Server/ChatServer.cs:636-642 | fewer than 1000 nicknames leave a numeral below 1000 free |
| Server.IncreasingUpper | Server/ChatServer.cs:612-617 | ids handed out in increasing order and below n leave room for the ids after them |
| Server.IncreasingCovering | Server/ChatServer.cs:612-617 | increasing ids covering every id below n start 0, 1, 2, ... |
| Server.OnlineRosterWellFormed | Server/ChatServer.cs:542-553 | rows with '#'-free endpoints and valid nicknames are well-formed roster rows |
| Server.ConnectedOfUpdate | Server/ChatServer.cs:526-529 | changing a client's nickname or colour leaves the open connections unchanged |
| Server.ConsistentAdd | Server/ChatServer.cs:610-625 | AddClient with a valid unused nickname keeps the registry invariant, distinct nicknames included |
| Server.ConsistentRemove | Server/ChatServer.cs:486-490 | removing the client's row and closing it keeps the invariant and removes exactly that id |
| Server.ConsistentRename | Server/ChatServer.cs:391-392 | a rename to a valid unused name in both places keeps the invariant, distinct nicknames included |
| Server.ConsistentRecolor | Server/ChatServer.cs:528-529 | a colour change in both places keeps the invariant |
| Server.RemovedIds | Server/ChatServer.cs:488-489 | removing a position from the increasing online ids removes exactly that id and keeps them increasing |
| Server.ChatServer.SentRosterWellFormed | Server/ChatServer.cs:542-553 | every roster the server builds from its manager has well-formed rows |
| Server.ChatServer.constructor | Server/ChatServer.cs:67-72 | empty manager and registry, no subscribers, nothing written |
| Server.ChatServer.CreateClientList | Server/ChatServer.cs:542-553 | the "UpdatingClientList:" roster of the manager's rows |
| Server.ChatServer.BroadcastMessage | Server/ChatServer.cs:237-250 | one write per online client in manager order, skipping failing ones |
| Server.ChatServer.NotifyEach | Server/ChatServer.cs:574-590 | notice then roster to each online client, both skipped for a failing one |
| Server.ChatServer.FireOnMessageToClient | Server/ChatServer.cs:120-123 | the log grows by FanOut over the subscribers and the result says whether all handlers ran |
| Server.ChatServer.AcceptClient | Server/ChatServer.cs:558-566 | new registry entry, manager row with an unused default nickname, subscription and greeter; the captured id is the new id exactly when nobody has left; welcome burst then join notice and roster to all; a failing welcome ends the process |
| Server.ChatServer.RegisterClient | Server/ChatServer.cs:610-622 | the next id, an unused default nickname and colour 7 in the registry and the manager, both handlers installed, the invariant kept |
| Server.ChatServer.BroadcastUserJoinedMessage | Server/ChatServer.cs:574-590 | the join notice and the roster to each online client |
| Server.ChatServer.CloseClientConnection | Server/ChatServer.cs:486-513 | the client's row leaves the manager, its connection closes, the remaining clients get the notice and the new roster |
| Server.ChatServer.RemoveClient | Server/ChatServer.cs:486-490 | the row found by IndexOf leaves the manager and the connection closes; returns the client's nickname |
| Server.ChatServer.HandleNameChangeRequest | Server/ChatServer.cs:376-409 | accepted: notice quoting the old name, both places renamed, roster broadcast; refused: private reply only; an aborted notice or failed reply removes the sender's row, closes it and sends only the disconnect notice and roster |
| Server.ChatServer.HandleColorChangeRequest | Server/ChatServer.cs:418-479 | a palette name in any case recolours as SetClientColor; any other word gets the private refusal; a failed refusal closes the sender with the disconnect notice and roster |
| Server.ChatServer.SetClientColor | Server/ChatServer.cs:522-535 | colour set in both places, notice fired, roster broadcast; an aborted notice removes the sender's row, closes it and sends the disconnect notice and roster, no roster broadcast |
| Server.ChatServer.RecolorClient | Server/ChatServer.cs:526-529 | the colour of exactly that row and that registry entry changes |
| Server.ChatServer.RenameClient | Server/ChatServer.cs:391-392 | the nickname of exactly that row and that registry entry changes |
| Server.ChatServer.HandleMessage | Server/ChatServer.cs:279-337 | "get out" removes the sender's row, closes it and sends only the disconnect notice and roster; chat text is fanned out with the sender's nickname, and a throwing handler closes the sender the same way after the partial fan-out |
| Server.ChatServer.Stop | Server/ChatServer.cs:103-112 | the offline notice to every online client, every connection closed, the process ends |
| Client.RowAt | Client/ChatClient.cs:561-566 | a row is read exactly when its four fields exist and id and colour parse; its fields are the text's |
| Client.ParseRows | Client/ChatClient.cs:559-567 | rows read in order until the first unreadable one; every read row is RowAt of its position |
| Client.ParseRowsStopped | Client/ChatClient.cs:559-567 | after the first unreadable row, further iterations change nothing |
| Client.ParseRoster | Client/ChatClient.cs:556-570 | a successful read has field 1 equal to the number of rows read |
| Client.ParseRowsOfFields | Client/ChatClient.cs:559-567 | rows laid out as RosterFields lays them are read back exactly |
| Client.BannerLinesComplete | Client/ChatClient.cs:709-727 | fields 2..7 give nine history lines, blanks after fields 2, 4 and 7 |
| Client.SpeakerColor | Client/ChatClient.cs:539-550 | no colour exactly when there are fewer than three words or word 2 is neither "Server" nor a known nickname |
| Client.SpeakerColorOfChatLine | Client/ChatClient.cs:539-550 | a chat line gets grey for the server, the colour of the speaker's first roster row, or none for an unknown speaker |
| Client.TrimCount | Client/ChatClient.cs:520-524 | the trim leaves fewer than 28 lines and removes nothing from a shorter history |
| Client.WelcomeRows | Client/ChatClient.cs:739-745 | a successful read has field 9 equal to the number of rows |
| Client.OutgoingShort | Client/ChatClient.cs:356-364 | nothing of 256 characters or more is sent, and only typed lines whose write succeeded |
| Client.OutgoingUntilQuit | Client/ChatClient.cs:351-387 | until a "get out" reaches the server, exactly the short typed lines whose write succeeds are sent; a failed write loses only that line |
| Client.OutgoingStopsAtQuit | Client/ChatClient.cs:357-368 | the first "get out" that is written is the last line sent |
| Client.OutgoingSnoc | Client/ChatClient.cs:356-364 | one more typed line adds itself when short enough and written |
| Client.SendInputs | Client/ChatClient.cs:344-387 | the loop, restarted after each failed write, sends Outgoing(inputs) and quits exactly when a "get out" was written |
| Client.ChatClient.constructor | Client/ChatClient.cs:107-125 | empty manager and history |
| Client.ChatClient.AppendRows | Client/ChatClient.cs:559-567 | the manager gains ParseRows' rows; the flag says whether all were read |
| Client.ChatClient.AddRow | Client/ChatClient.cs:561-566 | one row appended to the four lists |
| Client.ChatClient.UpdateClientList | Client/ChatClient.cs:556-570 | the manager becomes exactly the rows of the text; the flag says whether it was readable |
| Client.ChatClient.WriteWelcomeMessage | Client/ChatClient.cs:703-747 | field 1 is the nickname, the banner lines and their nine colours join the history, the rows from field 10 join the manager; stops where a field is missing |
| Client.ChatClient.AddBannerLines | Client/ChatClient.cs:709-727 | appends BannerLines and reports whether all six fields were there |
| Client.ChatClient.TrimHistory | Client/ChatClient.cs:520-524 | the oldest lines and colours go together until fewer than 28 remain; running out of colours ends the process |
| Client.ChatClient.ReceiveMessage | Client/ChatClient.cs:417-533 | a roster update replaces the manager; a displayable text is coloured, added while there is room and trimmed; an unknown speaker or bad roster ends the process |
| Handshake.RosterRoundTrip | Client/ChatClient.cs:556-570 | the server's roster is recognised as an update and read back as exactly the server's rows |
| Handshake.ServerRosterRoundTrip | Server/ChatServer.cs:542-553 | every roster a running server builds is read back by the client as exactly the server's online rows |
| Handshake.ServerWelcomeRoundTrip | NetworkComponents/OnClientConnectedEventArgs.cs:67-96 | the newest client reads back the captured nickname and exactly the server's online rows |
| Handshake.WelcomeBurstTerminated | NetworkComponents/OnClientConnectedEventArgs.cs:67-96 | the three welcome writes concatenate to the '#'-terminated wire fields |
| Handshake.WelcomeBurstSplit | NetworkComponents/OnClientConnectedEventArgs.cs:67-96 | the burst splits into the wire fields, with the roster tag merged into the banner's last segment |
| Handshake.WelcomeRoundTrip | Client/ChatClient.cs:703-747 | with the corrected header the client reads its own nickname, the full banner and exactly the online rows |
| Handshake.AsWrittenNicknameField | NetworkComponents/OnClientConnectedEventArgs.cs:84-88 | with the header as written, field 1 is the captured position |
| Handshake.NickNameHeaderAsWrittenMismatch | Client/ChatClient.cs:706-707 | after a departure the newest client "2" is handed "1", another online client's nickname |
| Handshake.ChatLineIsDisplayed | Client/ChatClient.cs:444-448 | a chat line with a digit-led timestamp is never taken for a roster update and is not empty |

## Left out

- Console rendering, cursor positioning, `Console.Beep` and the word-wrap loop. The wrapped lines are the parameter `wrapped` of `ReceiveMessage`.
- Threads, locks, `Thread.Sleep` and the interleaving of client threads. Each handler call is one atomic step.
- Sockets. A write either succeeds or throws, as given by `failing`, and the set covers all of a peer's writes in one step.
- Reads, where one `Read` returns one whole message. The welcome burst is assumed to arrive in one read, TCP coalescing included.
- `DateTime.Now`. Each step has one timestamp, even where the source reads the clock once per client.
- The keyboard watcher, the console-size watcher, `Start`, the listener loop, `StartClientThread` and `WriteMessage` (key handling). These are I/O loops with no protocol logic.
- The unused `sendBuffer` write at the top of `HandleMessages`. Its length test is always false.
- `Text.Lower` lower-cases ASCII letters only. `Char.ToLower` is culture-sensitive.
- `Text.ParseNat` accepts plain digit strings only. `Int32.Parse` also accepts a sign and surrounding white space, and overflows above 2^31-1.
- Client.ChatClient.UpdateClientList: when a roster row fails to parse, the model drops the whole row. The source may already have appended that row's id, endpoint and nickname before `int.Parse` of the colour throws.
- Client.ChatClient.AppendRows: the same partial-row approximation as `UpdateClientList`.
- Client.ChatClient.ReceiveMessage: the contract for a displayable text assumes the history and its colours are aligned, which every method keeps. It says nothing about a misaligned start.
- Server.ChatServer.AcceptClient sends the corrected nickname header (see Findings). The header as written is modelled and shown wrong by `Handshake.NickNameHeaderAsWrittenMismatch`.
- The banner's last line ("Type \"get out\"…") is never displayed. The source shows fields 2..7, and field 8 carries that line merged with the roster tag. The model reproduces this rather than fixing it.
- Distinct default nicknames: `DefaultNicknameFresh` proves a new nickname only when some candidate below 1000 is free. With 1000 clients holding them all, the source repeats a nickname, which `AcceptClient`'s precondition excludes.
- Console colours are kept as their integer codes.
- Server.ChatServer.FireOnMessageToClient: .NET's `TcpClient.Connected` turns false after a failed write, so a client whose write failed once is skipped by later events. The model's `connected` flag changes only on `Close`, and `failing` is chosen per step, so it does not carry that change from one step to the next.
- Server.ChatServer.HandleMessage: for colour and rename requests the contract states that the session ends exactly when the sender was closed; the per-case effect is the contract of the handler it calls.
- ServerRules.RenameDecision: `String.Length` counts UTF-16 code units, `|s|` counts Dafny characters. The `< 18` test can differ for names outside the Basic Multilingual Plane.
- Client.Outgoing: the `< 256` test has the same UTF-16 difference.
- Client.ChatClient.ReceiveMessage: the `< 2500` test and the width test have the same UTF-16 difference.
- Server.ChatServer.AcceptClient requires fewer than 1000 online clients, so that a default nickname is free and nicknames stay distinct. It also requires an endpoint without '#'; an IPv4 or IPv6 endpoint text has none.

## Findings

| source | as written | input that shows it | evidently intended | confidence | as-written member | corrected member |
|---|---|---|---|---|---|---|
| NetworkComponents/OnClientConnectedEventArgs.cs:84-88 | the nickname header carries `ID`, which the constructor (line 47) sets to `ClientsIDs.Count - 1`, a position in the online list; the client stores field 1 of the header as its nickname (Client/ChatClient.cs:707) | clients 0 and 1 join, client 0 leaves, then client 2 joins: the newest client, whose nickname is "2", is at position 1 and is told its nickname is "1", the nickname of client 1 | the header carries the newest client's nickname, so that the client stores its own name | not executed | ConnectedEvent.NickNameMessageAsWritten, Handshake.NickNameHeaderAsWrittenMismatch | ConnectedEvent.NickNameMessage, Handshake.WelcomeRoundTrip |
