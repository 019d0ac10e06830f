/** ChatServer: the registry of every client that ever connected, the
    manager of the online ones, the two events, and the handling of one
    received message at a time. Each handler invocation is one atomic step;
    writes that reach a client are appended to `log`. */
module Server {
  import opened Text
  import opened ClientManager
  import opened RosterCodec
  import opened ChatMessages
  import opened ConnectedEvent
  import opened ServerRules
  import opened Broadcast

  /** One element of registeredChatClients: the ChatClient object's id,
      nickname and colour, and whether its connection is still open. */
  datatype Peer = Peer(id: nat, nickname: string, color: nat, connected: bool)

  class ChatServer {
    /** clientsManager: one row per online client. */
    const manager: ChatClientManager
    /** registeredChatClients: appended to on every connection, never shrunk. */
    var registered: seq<Peer>
    /** The OnClientWroteMessage invocation list, as client ids in the order
        the handlers were added with +=; none is ever removed. */
    var subscribers: seq<nat>
    /** The single OnClientConnected handler; AddClient assigns it with =. */
    var greeter: Option<nat>
    /** The writes that reached a client, in order. */
    var log: seq<Delivery>
    /** False once the process has ended: Stop, or an exception escaping the
        listener thread. */
    var running: bool

    ghost predicate Valid()
      reads this, manager
    {
      manager.Valid()
      && Consistent(registered, manager.ids, manager.nicknames, manager.colors, subscribers, greeter)
      && EndpointsFree(manager.endpoints)
    }

    /** Every roster the server sends can be read back: no endpoint and no
        nickname holds the separator. */
    lemma SentRosterWellFormed()
      requires Valid()
      ensures RosterWellFormed(manager.Entries())
    {
      OnlineRosterWellFormed(manager.ids, manager.endpoints, manager.nicknames, manager.colors);
    }

    /** The ids whose ChatClient reports Connected. */
    function ConnectedIds(): (r: set<nat>)
      reads this
      ensures forall k :: k in r <==> 0 <= k < |registered| && registered[k].connected
    {
      ConnectedOf(registered)
    }

    constructor ()
      ensures Valid() && running
      ensures manager.ids == [] && registered == [] && subscribers == [] && log == []
    {
      manager := new ChatClientManager();
      registered := [];
      subscribers := [];
      greeter := None;
      log := [];
      running := true;
    }

    /** CreateClientList: the "UpdatingClientList:" roster of the online clients. */
    method CreateClientList() returns (message: string)
      requires Valid()
      ensures message == RosterMessage(UpdatingTag, manager.Entries())
    {
      message := BuildRosterMessage(UpdatingTag, manager.ids, manager.endpoints, manager.nicknames, manager.colors);
    }

    /** BroadcastMessage: one write to every online client in registry order,
        each inside its own try/catch. */
    method BroadcastMessage(message: string, failing: set<nat>)
      requires Valid()
      modifies this`log
      ensures log == old(log) + Deliveries(manager.ids, failing, message)
    {
      var ids := manager.ids;
      var i := 0;
      while i < |ids|
        invariant 0 <= i <= |ids|
        invariant log == old(log) + Deliveries(ids[..i], failing, message)
      {
        assert ids[..i + 1][..i] == ids[..i];
        if ids[i] !in failing {
          log := log + [Delivery(ids[i], message)];
        }
        i := i + 1;
      }
      assert ids[..i] == ids;
    }

    /** The loop shared by BroadcastUserJoinedMessage and CloseClientConnection:
        a notice and then the roster to every online client, the two writes
        inside one try/catch per client. */
    method NotifyEach(first: string, second: string, failing: set<nat>)
      requires Valid()
      modifies this`log
      ensures log == old(log) + PairDeliveries(manager.ids, failing, first, second)
    {
      var ids := manager.ids;
      var i := 0;
      while i < |ids|
        invariant 0 <= i <= |ids|
        invariant log == old(log) + PairDeliveries(ids[..i], failing, first, second)
      {
        assert ids[..i + 1][..i] == ids[..i];
        if ids[i] !in failing {
          log := log + [Delivery(ids[i], first), Delivery(ids[i], second)];
        }
        i := i + 1;
      }
      assert ids[..i] == ids;
    }

    /** FireOnMessageToClient: the chat event calls every subscriber's handler
        in order; a handler writes only while its client is connected, and
        the first write that throws ends the invocation. */
    method FireOnMessageToClient(user: string, message: string, ts: string, failing: set<nat>) returns (ok: bool)
      requires Valid()
      modifies this`log
      ensures log == old(log) + FanOut(subscribers, ConnectedIds(), failing, ChatLine(ts, user, message)).0
      ensures ok == FanOut(subscribers, ConnectedIds(), failing, ChatLine(ts, user, message)).1
    {
      var line := ChatLine(ts, user, message);
      ghost var connected := ConnectedIds();
      var i := 0;
      ok := true;
      while i < |subscribers| && ok
        invariant 0 <= i <= |subscribers|
        invariant log == old(log) + FanOut(subscribers[..i], connected, failing, line).0
        invariant ok == FanOut(subscribers[..i], connected, failing, line).1
      {
        assert subscribers[..i + 1][..i] == subscribers[..i];
        var s := subscribers[i];
        if registered[s].connected {
          if s in failing {
            ok := false;
          } else {
            log := log + [Delivery(s, line)];
          }
        }
        i := i + 1;
      }
      if ok {
        assert subscribers[..i] == subscribers;
      } else {
        FanOutStopped(subscribers, i, connected, failing, line);
      }
    }

    /** AddClient followed by the rest of AcceptClient: the new client gets
        the next id, its default nickname, colour 7 and a row in the manager;
        its handlers are installed; the greeting handler writes the three
        welcome messages; then every online client gets the join notice and
        the roster. A failing welcome write escapes the listener thread and
        ends the server. The nickname header is sent as intended, carrying
        the nickname (see Handshake.NickNameHeaderAsWrittenMismatch). */
    method AcceptClient(endpoint: string, ts: string, failing: set<nat>)
      requires Valid() && running
      requires Separator !in endpoint
      requires |manager.ids| < NicknameSearchBound
      modifies this`registered, this`greeter, this`subscribers, this`log, this`running, manager
      ensures Valid()
      ensures var id := |old(registered)|;
              var nickname := DefaultNickname(id, old(manager.nicknames));
              && registered == old(registered) + [Peer(id, nickname, DefaultColor, true)]
              && manager.Entries() == old(manager.Entries()) + [Entry(id, endpoint, nickname, DefaultColor)]
              && subscribers == old(subscribers) + [id]
              && greeter == Some(id)
              && running == (id !in failing)
              && nickname !in old(manager.nicknames)
              && (Capture(manager.Entries()).id == id
                  <==> forall k :: 0 <= k < |registered| ==> registered[k].connected)
              && (id in failing ==> log == old(log))
              && (id !in failing ==>
                    var args := Capture(manager.Entries());
                    log == old(log)
                      + [ Delivery(id, NickNameMessage(args)),
                          Delivery(id, WelcomeText(ts, args.nickname)),
                          Delivery(id, OnlineClientsMessage(args)) ]
                      + PairDeliveries(manager.ids, failing, ChatLine(ts, ServerName, JoinNotice(nickname)),
                                       RosterMessage(UpdatingTag, manager.Entries())))
    {
      var id, nickname := RegisterClient(endpoint);
      var args := Capture(manager.Entries());
      if id in failing {
        running := false;
        return;
      }
      var online := BuildRosterMessage(OnlineTag, manager.ids, manager.endpoints, manager.nicknames, manager.colors);
      log := log + [ Delivery(id, NickNameMessage(args)),
                     Delivery(id, WelcomeText(ts, args.nickname)),
                     Delivery(id, online) ];
      var roster := CreateClientList();
      BroadcastUserJoinedMessage(roster, nickname, ts, failing);
    }

    /** AddClient up to firing the connected event: the next id, the default
        nickname, colour 7, a row in the manager, and both handlers installed. */
    method RegisterClient(endpoint: string) returns (id: nat, nickname: string)
      requires Valid()
      requires Separator !in endpoint
      requires |manager.ids| < NicknameSearchBound
      modifies this`registered, this`greeter, this`subscribers, manager
      ensures Valid()
      ensures id == |old(registered)| && nickname == DefaultNickname(id, old(manager.nicknames))
      ensures nickname !in old(manager.nicknames)
      ensures registered == old(registered) + [Peer(id, nickname, DefaultColor, true)]
      ensures manager.Entries() == old(manager.Entries()) + [Entry(id, endpoint, nickname, DefaultColor)]
      ensures subscribers == old(subscribers) + [id]
      ensures greeter == Some(id)
      ensures |manager.ids| == |registered| <==> forall k :: 0 <= k < |registered| ==> registered[k].connected
    {
      id := |registered|;
      nickname := CreateNickName(id, manager.nicknames);
      NumeralIsValidNickname(nickname);
      ghost var free := FreeNumeral(manager.nicknames);
      DefaultNicknameFresh(id, manager.nicknames, free);
      ConsistentAdd(registered, manager.ids, manager.nicknames, manager.colors, subscribers, greeter, nickname);
      manager.AddClientData(id, nickname, endpoint);
      registered := registered + [Peer(id, nickname, DefaultColor, true)];
      greeter := Some(id);
      subscribers := subscribers + [id];
      NewestCaptured(registered, manager.ids, manager.nicknames, manager.colors, subscribers, greeter);
    }

    /** BroadcastUserJoinedMessage. */
    method BroadcastUserJoinedMessage(roster: string, nickname: string, ts: string, failing: set<nat>)
      requires Valid()
      modifies this`log
      ensures log == old(log) + PairDeliveries(manager.ids, failing, ChatLine(ts, ServerName, JoinNotice(nickname)), roster)
    {
      NotifyEach(ChatLine(ts, ServerName, JoinNotice(nickname)), roster, failing);
    }

    /** CloseClientConnection: the client's row leaves the manager, its
        connection closes, and every remaining online client gets the
        disconnect notice and the new roster. */
    method CloseClientConnection(id: nat, ts: string, failing: set<nat>)
      requires Valid() && id in manager.ids
      modifies this`registered, this`log, manager
      ensures Valid()
      ensures manager.Entries() == RemoveAt(old(manager.Entries()), IndexOf(old(manager.ids), id).value)
      ensures forall x :: x in manager.ids <==> x in old(manager.ids) && x != id
      ensures registered == old(registered)[id := old(registered)[id].(connected := false)]
      ensures log == old(log) + CloseLog(old(registered)[id].nickname, ts, failing, manager.ids, manager.Entries())
    {
      var nickname := RemoveClient(id);
      var roster := CreateClientList();
      NotifyEach(ChatLine(ts, ServerName, DisconnectNotice(nickname)), roster, failing);
    }

    /** The first half of CloseClientConnection: RemoveAtIndex on the row
        found by IndexOf, then TCPClient.Close. */
    method RemoveClient(id: nat) returns (nickname: string)
      requires Valid() && id in manager.ids
      modifies this`registered, manager
      ensures Valid()
      ensures nickname == old(registered)[id].nickname
      ensures manager.Entries() == RemoveAt(old(manager.Entries()), IndexOf(old(manager.ids), id).value)
      ensures forall x :: x in manager.ids <==> x in old(manager.ids) && x != id
      ensures registered == old(registered)[id := old(registered)[id].(connected := false)]
    {
      var index := IndexOf(manager.ids, id).value;
      ConsistentRemove(registered, manager.ids, manager.nicknames, manager.colors, subscribers, greeter, index);
      manager.RemoveAtIndex(index);
      nickname := registered[id].nickname;
      registered := registered[id := registered[id].(connected := false)];
    }

    /** The rename: accepted when short enough and not taken. The notice,
        quoting the old name, is fired before the rows change; if the chat
        event aborts, HandleMessages' catch closes the sender instead. A
        refusal is a private reply, and a failing reply closes the sender. */
    method HandleNameChangeRequest(id: nat, newName: string, ts: string, failing: set<nat>) returns (closed: bool)
      requires Valid() && id in manager.ids && ' ' !in newName
      modifies this`registered, this`log, manager
      ensures Valid()
      ensures closed <==> id !in manager.ids
      ensures var decision := RenameDecision(newName, old(manager.nicknames));
              var index := IndexOf(old(manager.ids), id).value;
              var notice := ChatLine(ts, ServerName, RenameNotice(old(registered)[id].nickname, newName));
              var fan := FanOut(old(subscribers), old(ConnectedIds()), failing, notice);
              var closing := CloseLog(old(registered)[id].nickname, ts, failing, manager.ids, manager.Entries());
              && (decision == Accepted && fan.1 ==>
                    && !closed
                    && manager.Entries() == old(manager.Entries())[index := old(manager.Entries())[index].(nickname := newName)]
                    && registered == old(registered)[id := old(registered)[id].(nickname := newName)]
                    && log == old(log) + fan.0 + Deliveries(manager.ids, failing, RosterMessage(UpdatingTag, manager.Entries())))
              && (decision == Accepted && !fan.1 ==>
                    && closed
                    && manager.Entries() == RemoveAt(old(manager.Entries()), index)
                    && registered == old(registered)[id := old(registered)[id].(connected := false)]
                    && log == old(log) + fan.0 + closing)
              && (decision != Accepted && id !in failing ==>
                    && !closed
                    && manager.Entries() == old(manager.Entries())
                    && registered == old(registered)
                    && log == old(log) + [Delivery(id, ChatLine(ts, ServerName, RenameReply(decision)))])
              && (decision != Accepted && id in failing ==>
                    && closed
                    && manager.Entries() == RemoveAt(old(manager.Entries()), index)
                    && registered == old(registered)[id := old(registered)[id].(connected := false)]
                    && log == old(log) + closing)
    {
      var taken := CheckIfNameTaken(newName, manager.nicknames);
      if |newName| < NicknameLimit && !taken {
        AcceptedNameIsValid(newName, manager.nicknames);
        var notice := RenameNotice(registered[id].nickname, newName);
        var ok := FireOnMessageToClient(ServerName, notice, ts, failing);
        if !ok {
          CloseClientConnection(id, ts, failing);
          return true;
        }
        RenameClient(id, newName);
        var roster := CreateClientList();
        BroadcastMessage(roster, failing);
        return false;
      }
      var decision := if taken then RejectedTaken else RejectedTooLong;
      if id in failing {
        CloseClientConnection(id, ts, failing);
        return true;
      }
      log := log + [Delivery(id, ChatLine(ts, ServerName, RenameReply(decision)))];
      return false;
    }

    /** HandleColorChangeRequest and SetClientColor: one of the thirteen
        names in any letter case sets the sender's colour in both places,
        then the notice is fired and the roster broadcast; any other word
        gets a private refusal. */
    method HandleColorChangeRequest(id: nat, word: string, ts: string, failing: set<nat>) returns (closed: bool)
      requires Valid() && id in manager.ids
      modifies this`registered, this`log, manager
      ensures Valid()
      ensures closed <==> id !in manager.ids
      ensures var code := ColorCode(Lower(word));
              var index := IndexOf(old(manager.ids), id).value;
              var notice := ChatLine(ts, ServerName, ColorNotice(old(registered)[id].nickname, Lower(word)));
              var fan := FanOut(old(subscribers), old(ConnectedIds()), failing, notice);
              var closing := CloseLog(old(registered)[id].nickname, ts, failing, manager.ids, manager.Entries());
              && (code.Some? && fan.1 ==>
                    && !closed
                    && manager.Entries() == old(manager.Entries())[index := old(manager.Entries())[index].(color := code.value)]
                    && registered == old(registered)[id := old(registered)[id].(color := code.value)]
                    && log == old(log) + fan.0 + Deliveries(manager.ids, failing, RosterMessage(UpdatingTag, manager.Entries())))
              && (code.Some? && !fan.1 ==>
                    && closed
                    && manager.Entries() == RemoveAt(old(manager.Entries()), index)
                    && registered == old(registered)[id := old(registered)[id].(color := code.value, connected := false)]
                    && log == old(log) + fan.0 + closing)
              && (code.None? && id !in failing ==>
                    && !closed
                    && manager.Entries() == old(manager.Entries())
                    && registered == old(registered)
                    && log == old(log) + [Delivery(id, ChatLine(ts, ServerName, BadColorReply))])
              && (code.None? && id in failing ==>
                    && closed
                    && manager.Entries() == RemoveAt(old(manager.Entries()), index)
                    && registered == old(registered)[id := old(registered)[id].(connected := false)]
                    && log == old(log) + closing)
    {
      var name := Lower(word);
      var code := ColorCode(name);
      if code.Some? {
        closed := SetClientColor(id, code.value, name, ts, failing);
        return;
      }
      if id in failing {
        CloseClientConnection(id, ts, failing);
        return true;
      }
      log := log + [Delivery(id, ChatLine(ts, ServerName, BadColorReply))];
      return false;
    }

    method SetClientColor(id: nat, code: nat, colorName: string, ts: string, failing: set<nat>) returns (closed: bool)
      requires Valid() && id in manager.ids
      modifies this`registered, this`log, manager
      ensures Valid()
      ensures closed <==> id !in manager.ids
      ensures var index := IndexOf(old(manager.ids), id).value;
              var notice := ChatLine(ts, ServerName, ColorNotice(old(registered)[id].nickname, colorName));
              var fan := FanOut(old(subscribers), old(ConnectedIds()), failing, notice);
              var closing := CloseLog(old(registered)[id].nickname, ts, failing, manager.ids, manager.Entries());
              && (fan.1 ==>
                    && !closed
                    && manager.Entries() == old(manager.Entries())[index := old(manager.Entries())[index].(color := code)]
                    && registered == old(registered)[id := old(registered)[id].(color := code)]
                    && log == old(log) + fan.0 + Deliveries(manager.ids, failing, RosterMessage(UpdatingTag, manager.Entries())))
              && (!fan.1 ==>
                    && closed
                    && manager.Entries() == RemoveAt(old(manager.Entries()), index)
                    && registered == old(registered)[id := old(registered)[id].(color := code, connected := false)]
                    && log == old(log) + fan.0 + closing)
    {
      ghost var index := IndexOf(manager.ids, id).value;
      ghost var before := manager.Entries();
      RecolorClient(id, code);
      var notice := ColorNotice(registered[id].nickname, colorName);
      var ok := FireOnMessageToClient(ServerName, notice, ts, failing);
      if !ok {
        RemoveAtUpdate(before, index, before[index].(color := code));
        CloseClientConnection(id, ts, failing);
        return true;
      }
      var roster := CreateClientList();
      BroadcastMessage(roster, failing);
      return false;
    }

    /** The first statements of SetClientColor: the colour in the manager's
        row and in the ChatClient object. */
    method RecolorClient(id: nat, code: nat)
      requires Valid() && id in manager.ids
      modifies this`registered, manager
      ensures Valid()
      ensures var index := IndexOf(old(manager.ids), id).value;
              manager.Entries() == old(manager.Entries())[index := old(manager.Entries())[index].(color := code)]
      ensures manager.ids == old(manager.ids) && manager.nicknames == old(manager.nicknames)
      ensures registered == old(registered)[id := old(registered)[id].(color := code)]
      ensures ConnectedIds() == old(ConnectedIds())
    {
      var index := IndexOf(manager.ids, id).value;
      ghost var before := manager.Entries();
      ConsistentRecolor(registered, manager.ids, manager.nicknames, manager.colors, subscribers, greeter, index, code);
      ConnectedOfUpdate(registered, id, registered[id].(color := code));
      manager.colors := manager.colors[index := code];
      registered := registered[id := registered[id].(color := code)];
      assert manager.Entries() == before[index := before[index].(color := code)];
    }

    /** The nickname in the manager's row and in the ChatClient object. */
    method RenameClient(id: nat, newName: string)
      requires Valid() && id in manager.ids && ValidNickname(newName) && newName !in manager.nicknames
      modifies this`registered, manager
      ensures Valid()
      ensures var index := IndexOf(old(manager.ids), id).value;
              manager.Entries() == old(manager.Entries())[index := old(manager.Entries())[index].(nickname := newName)]
      ensures manager.ids == old(manager.ids)
      ensures registered == old(registered)[id := old(registered)[id].(nickname := newName)]
    {
      var index := IndexOf(manager.ids, id).value;
      ghost var before := manager.Entries();
      ConsistentRename(registered, manager.ids, manager.nicknames, manager.colors, subscribers, greeter, index, newName);
      manager.nicknames := manager.nicknames[index := newName];
      registered := registered[id := registered[id].(nickname := newName)];
      assert manager.Entries() == before[index := before[index].(nickname := newName)];
    }

    /** One pass of the HandleMessages loop for the client `id`: dispatch on
        the message; "get out" and any exception close the connection and end
        the session. */
    method HandleMessage(id: nat, message: string, ts: string, failing: set<nat>) returns (ended: bool)
      requires Valid() && id in manager.ids
      modifies this`registered, this`log, manager
      ensures Valid()
      ensures ended <==> id !in manager.ids
      ensures var index := IndexOf(old(manager.ids), id).value;
              var closing := CloseLog(old(registered)[id].nickname, ts, failing, manager.ids, manager.Entries());
              && (Classify(message) == Quit ==>
                    && ended
                    && manager.Entries() == RemoveAt(old(manager.Entries()), index)
                    && registered == old(registered)[id := old(registered)[id].(connected := false)]
                    && log == old(log) + closing)
              && (Classify(message).ChatText? ==>
                    var fan := FanOut(old(subscribers), old(ConnectedIds()), failing,
                                      ChatLine(ts, old(registered)[id].nickname, message));
                    && (fan.1 ==> !ended && manager.Entries() == old(manager.Entries())
                                  && registered == old(registered) && log == old(log) + fan.0)
                    && (!fan.1 ==>
                          && ended
                          && manager.Entries() == RemoveAt(old(manager.Entries()), index)
                          && registered == old(registered)[id := old(registered)[id].(connected := false)]
                          && log == old(log) + fan.0 + closing))
    {
      match Classify(message)
      case ColorRequest(word) =>
        ended := HandleColorChangeRequest(id, word, ts, failing);
      case RenameRequest(name) =>
        ended := HandleNameChangeRequest(id, name, ts, failing);
      case ChatText(text) =>
        var ok := FireOnMessageToClient(registered[id].nickname, text, ts, failing);
        if !ok {
          CloseClientConnection(id, ts, failing);
        }
        ended := !ok;
      case Quit =>
        CloseClientConnection(id, ts, failing);
        ended := true;
    }

    /** Stop: "Server went offline." to every online client, every
        connection closed, and the process ends. */
    method Stop(ts: string, failing: set<nat>)
      requires Valid() && running
      modifies this`registered, this`log, this`running
      ensures !running
      ensures log == old(log) + Deliveries(manager.ids, failing, ChatLine(ts, ServerName, OfflineNotice))
      ensures |registered| == |old(registered)|
      ensures forall k :: 0 <= k < |registered| ==> registered[k] == old(registered)[k].(connected := false)
    {
      BroadcastMessage(ChatLine(ts, ServerName, OfflineNotice), failing);
      ghost var sent := log;
      var k := 0;
      while k < |registered|
        invariant log == sent
        invariant 0 <= k <= |registered| == |old(registered)|
        invariant forall j :: 0 <= j < k ==> registered[j] == old(registered)[j].(connected := false)
        invariant forall j :: k <= j < |registered| ==> registered[j] == old(registered)[j]
      {
        registered := registered[k := registered[k].(connected := false)];
        k := k + 1;
      }
      running := false;
    }
  }

  function ConnectedOf(registered: seq<Peer>): (r: set<nat>)
    ensures forall k :: k in r <==> 0 <= k < |registered| && registered[k].connected
  {
    set k | 0 <= k < |registered| && registered[k].connected
  }

  /** Changing a client's nickname or colour leaves the open connections alone. */
  lemma {:induction false} ConnectedOfUpdate(registered: seq<Peer>, id: nat, p: Peer)
    requires id < |registered| && p.connected == registered[id].connected
    ensures ConnectedOf(registered[id := p]) == ConnectedOf(registered)
  {
  }

  /** The server's registry invariant, over the values of its lists:
      every registered client sits at the position of its id; the online ids
      are registered, strictly increasing (so distinct) and exactly the open
      connections; each manager row agrees with its ChatClient object; every
      online nickname is valid and no two are equal; a handler was subscribed per client, in id
      order; and the greeting handler is the newest client's. */
  ghost predicate Consistent(registered: seq<Peer>, ids: seq<nat>, nicknames: seq<string>, colors: seq<nat>,
                             subscribers: seq<nat>, greeter: Option<nat>)
  {
    && |ids| == |nicknames| == |colors|
    && (forall k :: 0 <= k < |registered| ==> registered[k].id == k)
    && (forall i :: 0 <= i < |ids| ==> ids[i] < |registered|)
    && (forall i, j :: 0 <= i < j < |ids| ==> ids[i] < ids[j])
    && (forall i :: 0 <= i < |ids| ==> registered[ids[i]].nickname == nicknames[i] && registered[ids[i]].color == colors[i])
    && (forall k :: 0 <= k < |registered| ==> (registered[k].connected <==> k in ids))
    && (forall i :: 0 <= i < |nicknames| ==> ValidNickname(nicknames[i]))
    && (forall i, j :: 0 <= i < j < |nicknames| ==> nicknames[i] != nicknames[j])
    && |subscribers| == |registered|
    && (forall k :: 0 <= k < |subscribers| ==> subscribers[k] == k)
    && greeter == (if registered == [] then None else Some(|registered| - 1))
  }

  /** AddClient keeps the invariant: the new id is the registry's length,
      larger than every online id. */
  lemma {:induction false} ConsistentAdd(registered: seq<Peer>, ids: seq<nat>, nicknames: seq<string>, colors: seq<nat>,
                      subscribers: seq<nat>, greeter: Option<nat>, nickname: string)
    requires Consistent(registered, ids, nicknames, colors, subscribers, greeter)
    requires ValidNickname(nickname) && nickname !in nicknames
    ensures var id := |registered|;
            Consistent(registered + [Peer(id, nickname, DefaultColor, true)], ids + [id], nicknames + [nickname],
                       colors + [DefaultColor], subscribers + [id], Some(id))
  {
    var id := |registered|;
    var r := registered + [Peer(id, nickname, DefaultColor, true)];
    var ids' := ids + [id];
    forall k | 0 <= k < |r| ensures r[k].connected <==> k in ids' {
      if k < id {
        assert r[k] == registered[k];
      }
    }
    forall i | 0 <= i < |ids'|
      ensures r[ids'[i]].nickname == (nicknames + [nickname])[i] && r[ids'[i]].color == (colors + [DefaultColor])[i]
    {
      if i < |ids| {
        assert r[ids[i]] == registered[ids[i]];
      }
    }
  }

  /** CloseClientConnection keeps the invariant. */
  lemma {:induction false} ConsistentRemove(registered: seq<Peer>, ids: seq<nat>, nicknames: seq<string>, colors: seq<nat>,
                         subscribers: seq<nat>, greeter: Option<nat>, index: nat)
    requires Consistent(registered, ids, nicknames, colors, subscribers, greeter)
    requires index < |ids|
    ensures var id := ids[index];
            Consistent(registered[id := registered[id].(connected := false)], RemoveAt(ids, index),
                       RemoveAt(nicknames, index), RemoveAt(colors, index), subscribers, greeter)
    ensures forall x :: x in RemoveAt(ids, index) <==> x in ids && x != ids[index]
  {
    var id := ids[index];
    var r := registered[id := registered[id].(connected := false)];
    var ids' := RemoveAt(ids, index);
    RemovedIds(ids, index);
    RemoveAtDistinct(nicknames, index);
    forall k | 0 <= k < |r| ensures r[k].connected <==> k in ids' {
      if k != id {
        assert r[k] == registered[k];
      }
    }
    forall i | 0 <= i < |ids'|
      ensures r[ids'[i]].nickname == RemoveAt(nicknames, index)[i] && r[ids'[i]].color == RemoveAt(colors, index)[i]
    {
      var j := if i < index then i else i + 1;
      assert ids'[i] == ids[j] && j != index;
      assert ids[j] != id;
    }
  }

  /** A rename of the row at `index` to a valid name keeps the invariant. */
  lemma {:induction false} ConsistentRename(registered: seq<Peer>, ids: seq<nat>, nicknames: seq<string>, colors: seq<nat>,
                         subscribers: seq<nat>, greeter: Option<nat>, index: nat, name: string)
    requires Consistent(registered, ids, nicknames, colors, subscribers, greeter)
    requires index < |ids| && ValidNickname(name) && name !in nicknames
    ensures var id := ids[index];
            Consistent(registered[id := registered[id].(nickname := name)], ids, nicknames[index := name],
                       colors, subscribers, greeter)
  {
    var id := ids[index];
    var r := registered[id := registered[id].(nickname := name)];
    forall i | 0 <= i < |ids|
      ensures r[ids[i]].nickname == nicknames[index := name][i] && r[ids[i]].color == colors[i]
    {
      if i != index {
        assert ids[i] != id;
      }
    }
  }

  /** A colour change of the row at `index` keeps the invariant. */
  lemma {:induction false} ConsistentRecolor(registered: seq<Peer>, ids: seq<nat>, nicknames: seq<string>, colors: seq<nat>,
                          subscribers: seq<nat>, greeter: Option<nat>, index: nat, code: nat)
    requires Consistent(registered, ids, nicknames, colors, subscribers, greeter)
    requires index < |ids|
    ensures var id := ids[index];
            Consistent(registered[id := registered[id].(color := code)], ids, nicknames,
                       colors[index := code], subscribers, greeter)
  {
    var id := ids[index];
    var r := registered[id := registered[id].(color := code)];
    forall i | 0 <= i < |ids|
      ensures r[ids[i]].nickname == nicknames[i] && r[ids[i]].color == colors[index := code][i]
    {
      if i != index {
        assert ids[i] != id;
      }
    }
  }

  /** The writes of CloseClientConnection after the removal: the disconnect
      notice and the new roster to every remaining online client. */
  function CloseLog(nickname: string, ts: string, failing: set<nat>, ids: seq<nat>, rows: seq<Entry>): seq<Delivery>
  {
    PairDeliveries(ids, failing, ChatLine(ts, ServerName, DisconnectNotice(nickname)), RosterMessage(UpdatingTag, rows))
  }

  /** The open connections are exactly the online ids. */
  lemma {:induction false} ConnectedAreOnline(registered: seq<Peer>, ids: seq<nat>, nicknames: seq<string>, colors: seq<nat>,
                           subscribers: seq<nat>, greeter: Option<nat>)
    requires Consistent(registered, ids, nicknames, colors, subscribers, greeter)
    ensures ConnectedOf(registered) == set x | x in ids
  {
    forall x | x in ids ensures x in ConnectedOf(registered) {
      var i :| 0 <= i < |ids| && ids[i] == x;
      assert x < |registered|;
    }
  }

  predicate EndpointsFree(endpoints: seq<string>)
  {
    forall i :: 0 <= i < |endpoints| ==> Separator !in endpoints[i]
  }

  /** The rows of the online clients are well-formed roster rows. */
  lemma {:induction false} OnlineRosterWellFormed(ids: seq<nat>, endpoints: seq<string>, nicknames: seq<string>, colors: seq<nat>)
    requires |ids| == |endpoints| == |nicknames| == |colors|
    requires EndpointsFree(endpoints)
    requires forall i :: 0 <= i < |nicknames| ==> ValidNickname(nicknames[i])
    ensures RosterWellFormed(Zip(ids, endpoints, nicknames, colors))
  {
    var rows := Zip(ids, endpoints, nicknames, colors);
    forall i | 0 <= i < |rows| ensures EntryWellFormed(rows[i]) {
      assert rows[i].nickname == nicknames[i] && ValidNickname(nicknames[i]);
    }
  }

  /** Pigeonhole: a list holding each numeral below n has at least n elements. */
  lemma {:induction false} NumeralsCover(s: seq<string>, n: nat)
    requires forall i :: 0 <= i < n ==> NatToString(i) in s
    ensures n <= |s|
    decreases n
  {
    if n > 0 {
      var k := IndexOf(s, NatToString(n - 1)).value;
      var rest := RemoveAt(s, k);
      forall i | 0 <= i < n - 1 ensures NatToString(i) in rest {
        var p :| 0 <= p < |s| && s[p] == NatToString(i);
        if p == k {
          NatToStringInjective(i, n - 1);
        } else if p < k {
          assert rest[p] == s[p];
        } else {
          assert rest[p - 1] == s[p];
        }
      }
      NumeralsCover(rest, n - 1);
    }
  }

  /** Fewer than 1000 nicknames leave a numeral below 1000 free. */
  lemma {:induction false} FreeNumeral(nicknames: seq<string>) returns (i: nat)
    requires |nicknames| < NicknameSearchBound
    ensures i < NicknameSearchBound && NatToString(i) !in nicknames
  {
    var f := FirstFree(nicknames, 0);
    if f.None? {
      NumeralsCover(nicknames, NicknameSearchBound);
      assert false;
    }
    i := f.value;
  }

  /** Ids below the length of a strictly increasing list are at least their position. */
  lemma {:induction false} IncreasingLower(ids: seq<nat>, i: nat)
    requires forall a, b :: 0 <= a < b < |ids| ==> ids[a] < ids[b]
    requires i < |ids|
    ensures i <= ids[i]
  {
    if i > 0 {
      IncreasingLower(ids, i - 1);
    }
  }

  /** A strictly increasing list of ids below n leaves room for its tail. */
  lemma {:induction false} IncreasingUpper(ids: seq<nat>, n: nat, i: nat)
    requires forall a, b :: 0 <= a < b < |ids| ==> ids[a] < ids[b]
    requires forall a :: 0 <= a < |ids| ==> ids[a] < n
    requires i < |ids|
    ensures ids[i] + (|ids| - i) <= n
    decreases |ids| - i
  {
    if i + 1 < |ids| {
      IncreasingUpper(ids, n, i + 1);
    }
  }

  /** A strictly increasing list holding every id below n starts 0, 1, 2, ... */
  lemma {:induction false} IncreasingCovering(ids: seq<nat>, n: nat, i: nat)
    requires forall a, b :: 0 <= a < b < |ids| ==> ids[a] < ids[b]
    requires forall k :: 0 <= k < n ==> k in ids
    requires i < n
    ensures i < |ids| && ids[i] == i
  {
    assert i in ids;
    var p :| 0 <= p < |ids| && ids[p] == i;
    // p <= i, and p > i - 1 because ids[i - 1] == i - 1
    IncreasingLower(ids, p);
    if i > 0 {
      IncreasingCovering(ids, n, i - 1);
    }
  }

  /** Ids are handed out as 0, 1, 2, ...: the online list is as long as the
      registry exactly when nobody has left. So the newest row's position,
      which the connected event takes as its id, is the newest id exactly
      when no client has disconnected. */
  lemma {:induction false} NewestCaptured(registered: seq<Peer>, ids: seq<nat>, nicknames: seq<string>, colors: seq<nat>,
                       subscribers: seq<nat>, greeter: Option<nat>)
    requires Consistent(registered, ids, nicknames, colors, subscribers, greeter)
    ensures |ids| == |registered| <==> forall k :: 0 <= k < |registered| ==> registered[k].connected
  {
    var n := |registered|;
    if |ids| > 0 {
      IncreasingUpper(ids, n, 0);
    }
    if |ids| == n {
      forall k | 0 <= k < n ensures registered[k].connected {
        IncreasingLower(ids, k);
        IncreasingUpper(ids, n, k);
        assert ids[k] == k;
      }
    }
    if forall k :: 0 <= k < n ==> registered[k].connected {
      if n > 0 {
        IncreasingCovering(ids, n, n - 1);
      }
    }
  }

  /** Removing position `index` from a strictly increasing id list removes
      exactly that id and keeps the list strictly increasing. */
  lemma {:induction false} RemovedIds(ids: seq<nat>, index: nat)
    requires index < |ids|
    requires forall i, j :: 0 <= i < j < |ids| ==> ids[i] < ids[j]
    ensures forall x :: x in RemoveAt(ids, index) <==> x in ids && x != ids[index]
    ensures forall i, j :: 0 <= i < j < |RemoveAt(ids, index)| ==> RemoveAt(ids, index)[i] < RemoveAt(ids, index)[j]
  {
    var r := RemoveAt(ids, index);
    forall x | x in ids && x != ids[index] ensures x in r {
      var k :| 0 <= k < |ids| && ids[k] == x;
      if k < index {
        assert r[k] == x;
      } else {
        assert r[k - 1] == x;
      }
    }
  }
}
