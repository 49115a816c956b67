/** The chat coordinator of server.go: messages, clients, chat rooms and the
    lobby that owns them. Every event of the lobby's dispatch loop is one
    method call on a Lobby, so the state changes strictly one event at a time;
    a send on a client's outgoing channel appends to that client's outbox. */
module Server {
  import opened Strings
  import opened Fmt
  import opened Seqs
  import opened Protocol

  // ---------------------------------------------------------------------
  // Message

  /** A line received from a client: when it was read, who sent it, and its
      text without the line's newline. Timestamps are nanoseconds. */
  datatype Message = Message(time: int, client: Client, text: string)

  /** Client.Read's step for one line `str` returned by ReadString('\n'):
      NewMessage(now, client, strings.TrimSuffix(str, "\n")). */
  function ReadMessage(now: int, client: Client, str: string): (m: Message)
    ensures m.time == now && m.client == client
    ensures HasSuffix(str, "\n") ==> m.text + "\n" == str
    ensures !HasSuffix(str, "\n") ==> m.text == str
  {
    Message(now, client, TrimSuffix(str, "\n"))
  }

  /** A complete line as ReadString returns it: the data up to and including
      the first newline. */
  predicate IsLine(str: string)
  {
    |str| > 0 && str[|str| - 1] == '\n' && '\n' !in str[..|str| - 1]
  }

  /** The text of a message read from a complete line holds no newline, so the
      trailing-newline trim of Lobby.Parse never changes an argument taken from
      it. */
  lemma ReadTextHasNoNewline(now: int, client: Client, str: string)
    requires IsLine(str)
    ensures '\n' !in ReadMessage(now, client, str).text
    ensures !HasSuffix(ReadMessage(now, client, str).text, "\n")
  {
    var text := ReadMessage(now, client, str).text;
    assert text == str[..|str| - 1];
  }

  /** Message.String: "<time> - <sender's current name>: <text>\n", the time
      rendered with the layout time.Kitchen by `kitchen`. */
  function Render(m: Message, kitchen: int -> string): (r: string)
    reads m.client
    ensures r == kitchen(m.time) + " - " + m.client.name + ": " + m.text + "\n"
  {
    RenderFormat();
    SprintfThree("", " - ", ": ", "\n", kitchen(m.time), m.client.name, m.text);
    assert "" + kitchen(m.time) == kitchen(m.time);
    Sprintf("%s - %s: %s\n", [kitchen(m.time), m.client.name, m.text])
  }

  /** Message.String's format split around its verbs. */
  lemma RenderFormat()
    ensures "%s - %s: %s\n" == "" + "%s" + " - " + "%s" + ": " + "%s" + "\n"
  {
  }

  /** When the clock, the name and the text hold no newline, a rendered
      message is exactly one line: its only newline is the last character. */
  lemma RenderIsOneLine(m: Message, kitchen: int -> string)
    requires '\n' !in kitchen(m.time) && '\n' !in m.client.name && '\n' !in m.text
    ensures var r := Render(m, kitchen); |r| > 0 && r[|r| - 1] == '\n' && '\n' !in r[..|r| - 1]
  {
    var r := Render(m, kitchen);
    var body := kitchen(m.time) + " - " + m.client.name + ": " + m.text;
    assert r == body + "\n";
    assert r[..|r| - 1] == body;
  }

  // ---------------------------------------------------------------------
  // Client

  /** A connected client: its display name, its current chat room, everything
      sent so far on its outgoing channel, whether that channel is closed, and
      whether its connection is closed. */
  class Client {
    var name: string
    var chatRoom: ChatRoom?
    var outbox: seq<string>
    var outboxClosed: bool
    var connClosed: bool

    /** NewClient, without the socket: named "Anonymous", in no room,
        nothing sent yet. */
    constructor ()
      ensures name == CLIENT_NAME && chatRoom == null && outbox == []
      ensures !outboxClosed && !connClosed
    {
      name := CLIENT_NAME;
      chatRoom := null;
      outbox := [];
      outboxClosed := false;
      connClosed := false;
    }

    /** `client.outgoing <- s`. Sending on a closed channel panics in Go, so
        the model demands an open channel; the lobby's invariant provides it. */
    method Send(s: string)
      requires !outboxClosed
      modifies this`outbox
      ensures outbox == old(outbox) + [s]
    {
      outbox := outbox + [s];
    }

    /** Client.Quit: closes the connection. The read loop then fails and the
        lobby receives this client's disconnect event (Lobby.Leave). */
    method Quit()
      modifies this`connClosed
      ensures connClosed
    {
      connClosed := true;
    }
  }

  // ---------------------------------------------------------------------
  // ChatRoom

  /** A chat room: its name, its members in joining order, every string
      broadcast in it, and the instant after which it counts as inactive. */
  class ChatRoom {
    const name: string
    var clients: seq<Client>
    var messages: seq<string>
    var expiry: int

    /** The members, as a set. */
    ghost function Members(): set<Client>
      reads this`clients
    {
      set c | c in clients
    }

    /** Members are listed once, point back at this room, and can still be
        sent to. */
    ghost predicate Valid()
      reads this`clients, Members()`chatRoom, Members()`outboxClosed
    {
      Distinct(clients) && forall c :: c in clients ==> c.chatRoom == this && !c.outboxClosed
    }

    /** NewChatRoom: no members, no history, expiring EXPIRY_TIME from now. */
    constructor (name: string, now: int)
      ensures this.name == name && clients == [] && messages == []
      ensures expiry == now + EXPIRY_TIME
      ensures Valid()
    {
      this.name := name;
      clients := [];
      messages := [];
      expiry := now + EXPIRY_TIME;
    }

    /** ChatRoom.Broadcast: pushes the expiry to EXPIRY_TIME from now, records
        the message once in the history and sends it once to every member. */
    method Broadcast(message: string, now: int)
      requires Valid()
      modifies this`messages, this`expiry, Members()`outbox
      ensures Valid()
      ensures expiry == now + EXPIRY_TIME
      ensures messages == old(messages) + [message]
      ensures forall c :: c in clients ==> c.outbox == old(c.outbox) + [message]
    {
      expiry := now + EXPIRY_TIME;
      messages := messages + [message];
      var i := 0;
      while i < |clients|
        modifies Members()`outbox
        invariant 0 <= i <= |clients|
        invariant forall k :: 0 <= k < i ==> clients[k].outbox == old(clients[k].outbox) + [message]
        invariant forall k :: i <= k < |clients| ==> clients[k].outbox == old(clients[k].outbox)
      {
        clients[i].Send(message);
        i := i + 1;
      }
    }

    /** ChatRoom.Join: the client is pointed at this room, receives the whole
        history in order, is appended to the members, and then the join
        notice is broadcast, so the joiner receives it too. */
    method Join(client: Client, now: int)
      requires Valid() && client !in clients
      requires client.chatRoom == null && !client.outboxClosed
      modifies this`clients, this`messages, this`expiry, client`chatRoom, client`outbox, Members()`outbox
      ensures Valid()
      ensures client.chatRoom == this
      ensures clients == old(clients) + [client]
      ensures messages == old(messages) + [JoinNotice(client.name)]
      ensures expiry == now + EXPIRY_TIME
      ensures client.outbox == old(client.outbox) + old(messages) + [JoinNotice(client.name)]
      ensures forall c :: c in old(clients) ==> c.outbox == old(c.outbox) + [JoinNotice(client.name)]
    {
      client.chatRoom := this;
      var i := 0;
      while i < |messages|
        modifies client`outbox
        invariant 0 <= i <= |messages|
        invariant client.outbox == old(client.outbox) + messages[..i]
      {
        client.Send(messages[i]);
        assert messages[..i + 1] == messages[..i] + [messages[i]];
        i := i + 1;
      }
      assert messages[..i] == messages;
      clients := clients + [client];
      Broadcast(JoinNotice(client.name), now);
    }

    /** ChatRoom.Leave: the leave notice is broadcast while the client is
        still a member, so the leaver receives it; then the client's first
        occurrence is spliced out and its room reference cleared. */
    method Leave(client: Client, now: int)
      requires Valid() && client in clients
      modifies this`clients, this`messages, this`expiry, client`chatRoom, Members()`outbox
      ensures Valid()
      ensures client.chatRoom == null
      ensures clients == RemoveFirst(old(clients), client) && client !in clients
      ensures forall c :: c in clients <==> c in old(clients) && c != client
      ensures messages == old(messages) + [LeaveNotice(client.name)]
      ensures expiry == now + EXPIRY_TIME
      ensures forall c :: c in old(clients) ==> c.outbox == old(c.outbox) + [LeaveNotice(client.name)]
    {
      Broadcast(LeaveNotice(client.name), now);
      clients := RemoveFirstOccurrence(clients, client);
      RemoveFirstDistinct(old(clients), client);
      client.chatRoom := null;
    }

    /** ChatRoom.Delete: the deletion notice is broadcast to the members, then
        every member is put back in the lobby. */
    method Delete(now: int)
      requires Valid()
      modifies this`messages, this`expiry, Members()`outbox, Members()`chatRoom
      ensures clients == old(clients)
      ensures messages == old(messages) + [NOTICE_ROOM_DELETE]
      ensures expiry == now + EXPIRY_TIME
      ensures forall c :: c in clients ==> c.chatRoom == null
      ensures forall c :: c in clients ==> c.outbox == old(c.outbox) + [NOTICE_ROOM_DELETE]
    {
      Broadcast(NOTICE_ROOM_DELETE, now);
      var i := 0;
      while i < |clients|
        modifies Members()`chatRoom
        invariant 0 <= i <= |clients|
        invariant forall k :: 0 <= k < i ==> clients[k].chatRoom == null
      {
        clients[i].chatRoom := null;
        i := i + 1;
      }
    }
  }

  /** The room a client is in, as a set: empty in the lobby. */
  ghost function RoomOf(c: Client): set<ChatRoom>
    reads c`chatRoom
  {
    if c.chatRoom == null then {} else {c.chatRoom}
  }

  /** The members of the room a client is in, the client among them. */
  ghost function MatesOf(c: Client): set<Client>
    reads c`chatRoom, RoomOf(c)`clients
  {
    if c.chatRoom == null then {} else c.chatRoom.Members()
  }

  // ---------------------------------------------------------------------
  // What one event changes. Each handler's `modifies` clause says which
  // fields it may write; these predicates say what it writes there.

  /** `r.Broadcast(msg)` ran at `now`: the members are the same, the history
      gained `msg`, the expiry moved to now + EXPIRY_TIME and every member's
      outbox gained `msg` once. */
  twostate predicate Broadcasted(r: ChatRoom, msg: string, now: int)
    reads *
  {
    && r.clients == old(r.clients)
    && r.messages == old(r.messages) + [msg]
    && r.expiry == now + EXPIRY_TIME
    && forall c :: c in r.clients ==> c.outbox == old(c.outbox) + [msg]
  }

  /** `r.Leave(client)` ran at `now`: the leave notice, carrying the client's
      name, went to every member including the leaver, the client's first
      occurrence was spliced out and its room reference cleared. */
  twostate predicate LeftRoom(r: ChatRoom, client: Client, now: int)
    reads *
  {
    && r.clients == RemoveFirst(old(r.clients), client)
    && (forall c :: c in r.clients ==> c in old(r.clients) && c != client)
    && (forall c :: c in old(r.clients) && c != client ==> c in r.clients)
    && r.messages == old(r.messages) + [LeaveNotice(client.name)]
    && r.expiry == now + EXPIRY_TIME
    && client.chatRoom == null
    && forall c :: c in old(r.clients) ==> c.outbox == old(c.outbox) + [LeaveNotice(client.name)]
  }

  /** `r.Join(client)` ran at `now`: the client points at the room, got the
      whole earlier history and then the join notice; the members before it
      got the join notice. */
  twostate predicate JoinedRoom(r: ChatRoom, client: Client, now: int)
    reads *
  {
    && client.chatRoom == r
    && r.clients == old(r.clients) + [client]
    && r.messages == old(r.messages) + [JoinNotice(client.name)]
    && r.expiry == now + EXPIRY_TIME
    && client.outbox == old(client.outbox) + old(r.messages) + [JoinNotice(client.name)]
    && forall c :: c in old(r.clients) ==> c.outbox == old(c.outbox) + [JoinNotice(client.name)]
  }

  /** The lobby sent `ss`, in order, to `c`. */
  twostate predicate Replied(c: Client, ss: seq<string>)
    reads c
  {
    c.outbox == old(c.outbox) + ss
  }

  /** SendMessage: from the lobby only ERROR_SEND comes back to the sender;
      from a room, the rendered message is broadcast there. */
  twostate predicate SendEffect(l: Lobby, m: Message, now: int)
    reads *
  {
    if old(m.client.chatRoom) == null then Replied(m.client, [ERROR_SEND])
    else Broadcasted(old(m.client.chatRoom), Render(m, l.kitchen), now)
  }

  /** CreateChatRoom: a taken name gets ERROR_CREATE and registers nothing;
      a free one is registered to a new empty room expiring EXPIRY_TIME from
      now, with a wake-up at that instant, and the creator is told. */
  twostate predicate CreateEffect(l: Lobby, c: Client, name: string, now: int)
    reads *
  {
    if name in old(l.chatRooms) then
      && l.chatRooms == old(l.chatRooms) && l.wakeups == old(l.wakeups)
      && Replied(c, [ERROR_CREATE])
    else
      && name in l.chatRooms
      && fresh(l.chatRooms[name])
      && l.chatRooms[name].name == name
      && l.chatRooms[name].clients == []
      && l.chatRooms[name].messages == []
      && l.chatRooms[name].expiry == now + EXPIRY_TIME
      && l.chatRooms == old(l.chatRooms)[name := l.chatRooms[name]]
      && l.wakeups == old(l.wakeups)[l.chatRooms[name] := now + EXPIRY_TIME]
      && Replied(c, [CreatedNotice(name)])
  }

  /** JoinChatRoom: an unknown name gets ERROR_JOIN and the client stays
      where it is; otherwise the client moves from its room (if any) to the
      named one. */
  twostate predicate JoinEffect(l: Lobby, c: Client, name: string, now: int)
    reads *
  {
    if name !in old(l.chatRooms) then c.chatRoom == old(c.chatRoom) && Replied(c, [ERROR_JOIN])
    else Moved(c, old(c.chatRoom), old(l.chatRooms)[name], now)
  }

  /** Client `c`, in room `r0` (or in no room), joined room `r` at `now`: it
      first left `r0` to the leave notice L, then received the history of
      `r`, which holds L when it rejoins the room it left, then the join
      notice J, which also reached the members that stayed in `r`. */
  twostate predicate Moved(c: Client, r0: ChatRoom?, r: ChatRoom, now: int)
    reads *
  {
    var L := LeaveNotice(c.name);
    var J := JoinNotice(c.name);
    var kept := if r0 == r then RemoveFirst(old(r.clients), c) else old(r.clients);
    var history := if r0 == r then old(r.messages) + [L] else old(r.messages);
    && c.chatRoom == r
    && r.clients == kept + [c]
    && r.messages == history + [J]
    && r.expiry == now + EXPIRY_TIME
    && c.outbox == old(c.outbox) + (if r0 == null then [] else [L]) + history + [J]
    && (forall m :: m in old(r.clients) && m != c ==> m.outbox == old(m.outbox) + (if r0 == r then [L, J] else [J]))
    && (r0 != null && r0 != r ==> LeftBehind(r0, c, now))
  }

  /** The room `c` left heard the leave notice and no longer holds `c`. */
  twostate predicate LeftBehind(r0: ChatRoom, c: Client, now: int)
    reads *
  {
    && r0.clients == RemoveFirst(old(r0.clients), c)
    && r0.messages == old(r0.messages) + [LeaveNotice(c.name)]
    && r0.expiry == now + EXPIRY_TIME
    && forall m :: m in old(r0.clients) && m != c ==> m.outbox == old(m.outbox) + [LeaveNotice(c.name)]
  }

  /** LeaveChatRoom: from the lobby only ERROR_LEAVE comes back; from a room
      the client leaves it. Either way it ends up in no room. */
  twostate predicate LeaveEffect(c: Client, now: int)
    reads *
  {
    if old(c.chatRoom) == null then c.chatRoom == null && Replied(c, [ERROR_LEAVE])
    else LeftRoom(old(c.chatRoom), c, now)
  }

  /** ChangeName: the name is always set; in the lobby the client gets the
      personal notice, in a room the room hears the old and the new name. */
  twostate predicate NameEffect(c: Client, name: string, now: int)
    reads *
  {
    && c.name == name
    && if old(c.chatRoom) == null then Replied(c, [PersonalNameNotice(name)])
       else Broadcasted(old(c.chatRoom), RenameNotice(old(c.name), name), now)
  }

  /** ListChatRooms: the client gets the listing of every registered name,
      visited in `order`. */
  twostate predicate Listed(l: Lobby, c: Client, order: seq<string>)
    reads *
  {
    IsEnumeration(order, l.chatRooms.Keys) && Replied(c, RoomListing(order))
  }

  /** Go's map iteration visits every key exactly once, in some order. */
  ghost predicate IsEnumeration(order: seq<string>, keys: set<string>)
  {
    Distinct(order) && forall n :: n in order <==> n in keys
  }

  // ---------------------------------------------------------------------
  // Lobby

  /** The coordinator: the admitted clients in admission order, the room
      registry, and the pending expiry wake-ups. */
  class Lobby {
    var clients: seq<Client>
    var chatRooms: map<string, ChatRoom>
    /** The sleeping expiry goroutines: for each room, the instant its one
        pending wake-up fires and sends the room to the delete channel. */
    var wakeups: map<ChatRoom, int>
    /** time.Kitchen formatting of a timestamp, taken as given. */
    const kitchen: int -> string

    /** The admitted clients, as a set. */
    ghost function Clients(): set<Client>
      reads this`clients
    {
      set c | c in clients
    }

    /** The registered rooms. */
    ghost function Rooms(): set<ChatRoom>
      reads this`chatRooms
    {
      chatRooms.Values
    }

    /** `r` is the room registered under its own name. */
    ghost predicate Registered(r: ChatRoom)
      reads this`chatRooms
    {
      r.name in chatRooms && chatRooms[r.name] == r
    }

    /** The lobby's invariant. At most MAX_CLIENTS clients, each admitted
        once, none with a closed outgoing channel; each room registered under
        its own name, holding only admitted clients, and with one pending
        wake-up; a client that has a room is a member of that registered room
        (and, by the room's invariant, of no other). */
    ghost predicate Valid()
      reads this`clients, this`chatRooms, this`wakeups
      reads Clients()`chatRoom, Clients()`outboxClosed, Rooms()`clients
    {
      && |clients| <= MAX_CLIENTS
      && Distinct(clients)
      && (forall c :: c in clients ==> !c.outboxClosed)
      && (forall n :: n in chatRooms ==> chatRooms[n].name == n && chatRooms[n] in wakeups)
      && (forall n, c :: n in chatRooms && c in chatRooms[n].clients ==> c in clients)
      && (forall n :: n in chatRooms ==> chatRooms[n].Valid())
      && (forall r :: r in wakeups ==> Registered(r))
      && (forall c :: c in clients && c.chatRoom != null ==> Registered(c.chatRoom) && c in c.chatRoom.clients)
    }

    /** NewLobby: no clients, no rooms. */
    constructor (kitchen: int -> string)
      ensures Valid()
      ensures clients == [] && chatRooms == map[] && wakeups == map[]
      ensures this.kitchen == kitchen
    {
      clients := [];
      chatRooms := map[];
      wakeups := map[];
      this.kitchen := kitchen;
    }

    /** An event that changes no room reference, no channel state, no
        member list, no registration and no room's pending status keeps the
        invariant. */
    twostate lemma StillValid()
      requires old(Valid())
      requires unchanged(this`clients, this`chatRooms) && wakeups.Keys == old(wakeups).Keys
      requires forall c :: c in old(clients) ==> unchanged(c`chatRoom, c`outboxClosed)
      requires forall r :: r in old(Rooms()) ==> unchanged(r`clients)
      ensures Valid()
    {
      forall n | n in chatRooms ensures chatRooms[n].Valid() {
        var r := chatRooms[n];
        assert r in old(Rooms()) && old(r.Valid());
        forall c | c in r.clients ensures c.chatRoom == r && !c.outboxClosed {
          assert c in old(clients);
        }
      }
      forall n, c | n in chatRooms && c in chatRooms[n].clients ensures c in clients {
        assert chatRooms[n] in old(Rooms());
      }
      forall c | c in clients && c.chatRoom != null ensures Registered(c.chatRoom) && c in c.chatRoom.clients {
        assert c.chatRoom in old(Rooms());
      }
    }

    /** A client with a room is a member of exactly one registered room,
        the one its room reference names, and a client in the lobby is a
        member of none. */
    lemma OneRoom(c: Client)
      requires Valid() && c in clients
      ensures c.chatRoom != null ==> c.chatRoom.name in chatRooms && chatRooms[c.chatRoom.name] == c.chatRoom
      ensures forall n :: n in chatRooms ==>
        (c in chatRooms[n].clients <==> c.chatRoom != null && n == c.chatRoom.name)
    {
      forall n | n in chatRooms
        ensures c in chatRooms[n].clients <==> c.chatRoom != null && n == c.chatRoom.name
      {
        if c in chatRooms[n].clients {
          assert chatRooms[n].Valid();
        }
      }
    }

    /** Lobby.Join, the admission event for a client fresh from NewClient:
        a full lobby closes the connection and registers nothing; otherwise
        the client is appended and receives exactly the welcome line. */
    method Join(client: Client)
      requires Valid()
      requires client !in clients && client.chatRoom == null && !client.outboxClosed
      modifies this`clients, client`outbox, client`connClosed
      ensures Valid()
      ensures old(|clients|) >= MAX_CLIENTS ==>
        clients == old(clients) && client.connClosed && client.outbox == old(client.outbox)
      ensures old(|clients|) < MAX_CLIENTS ==>
        && clients == old(clients) + [client]
        && client.outbox == old(client.outbox) + [MSG_CONNECT]
        && client.connClosed == old(client.connClosed)
    {
      if |clients| >= MAX_CLIENTS {
        client.Quit();
        return;
      }
      clients := clients + [client];
      client.Send(MSG_CONNECT);
    }

    /** `client.chatRoom.Leave(client)` under the lobby's invariant. */
    method LeaveRoom(client: Client, now: int)
      requires Valid() && client in clients && client.chatRoom != null
      modifies client.chatRoom`clients, client.chatRoom`messages, client.chatRoom`expiry
      modifies client`chatRoom, client.chatRoom.Members()`outbox
      ensures Valid()
      ensures LeftRoom(old(client.chatRoom), client, now)
    {
      var room := client.chatRoom;
      assert Registered(room);
      room.Leave(client, now);
      assert forall c :: c in clients && c != client ==> c.chatRoom == old(c.chatRoom);
      forall n | n in chatRooms ensures chatRooms[n].Valid() {
        var r := chatRooms[n];
        if r != room {
          assert r.clients == old(r.clients);
          forall c | c in r.clients ensures c.chatRoom == r && !c.outboxClosed {
            assert old(c.chatRoom) == r;
          }
        }
      }
      forall c | c in clients && c.chatRoom != null ensures Registered(c.chatRoom) && c in c.chatRoom.clients {
        var r := c.chatRoom;
        assert r == old(c.chatRoom) && c in old(r.clients);
      }
    }

    /** `room.Join(client)` under the lobby's invariant, for a client in no room. */
    method JoinRoom(room: ChatRoom, client: Client, now: int)
      requires Valid() && Registered(room) && client in clients && client.chatRoom == null
      modifies room`clients, room`messages, room`expiry, client`chatRoom, client`outbox, room.Members()`outbox
      ensures Valid()
      ensures JoinedRoom(room, client, now)
      ensures forall n :: n in chatRooms ==> (client in chatRooms[n].clients <==> n == room.name)
    {
      assert room.Valid();
      assert client !in room.clients;
      room.Join(client, now);
      assert forall c :: c in clients && c != client ==> c.chatRoom == old(c.chatRoom);
      forall n | n in chatRooms ensures chatRooms[n].Valid() {
        var r := chatRooms[n];
        if r != room {
          assert r.clients == old(r.clients);
          forall c | c in r.clients ensures c.chatRoom == r && !c.outboxClosed {
            assert old(c.chatRoom) == r;
          }
        }
      }
      forall c | c in clients && c.chatRoom != null ensures Registered(c.chatRoom) && c in c.chatRoom.clients {
        if c != client {
          var r := c.chatRoom;
          assert r == old(c.chatRoom) && c in old(r.clients);
        }
      }
      OneRoom(client);
    }

    /** The rest of Lobby.Leave for a client in no room: the splice out of
        the clients and the close of its outgoing channel. */
    method Drop(client: Client)
      requires Valid() && client in clients && client.chatRoom == null
      modifies this`clients, client`outboxClosed
      ensures Valid()
      ensures clients == RemoveFirst(old(clients), client) && client !in clients
      ensures client.outboxClosed
    {
      assert forall n :: n in chatRooms ==> client !in chatRooms[n].clients;
      var rest := RemoveFirstOccurrence(clients, client);
      RemoveFirstDistinct(clients, client);
      clients := rest;
      client.outboxClosed := true;
      forall n | n in chatRooms ensures chatRooms[n].Valid() {
        var r := chatRooms[n];
        forall c | c in r.clients ensures c.chatRoom == r && !c.outboxClosed {
          assert c != client;
        }
      }
    }

    /** Lobby.Leave, the disconnect event: a client in a room leaves it as
        with /leave (the leave notice reaches the leaver too), then it is
        spliced out of the clients and its outgoing channel is closed. */
    method Leave(client: Client, now: int)
      requires Valid() && client in clients
      modifies this`clients, client`outboxClosed, client`chatRoom
      modifies RoomOf(client)`clients, RoomOf(client)`messages, RoomOf(client)`expiry, MatesOf(client)`outbox
      ensures Valid()
      ensures clients == RemoveFirst(old(clients), client) && client !in clients
      ensures client.outboxClosed && client.chatRoom == null
      ensures old(client.chatRoom) != null ==> LeftRoom(old(client.chatRoom), client, now)
    {
      if client.chatRoom != null {
        LeaveRoom(client, now);
      }
      Drop(client);
    }

    /** Lobby.DeleteChatRoom, run when a room's pending wake-up fires: a room
        broadcast to since the wake-up was scheduled only gets a new wake-up
        at its current expiry; an expired one broadcasts the deletion notice,
        returns its members to the lobby and leaves the registry. */
    method DeleteChatRoom(room: ChatRoom, now: int)
      requires Valid() && room in wakeups && wakeups[room] <= now
      modifies this`chatRooms, this`wakeups, room`messages, room`expiry
      modifies room.Members()`outbox, room.Members()`chatRoom
      ensures Valid()
      ensures old(room.expiry) > now ==>
        && chatRooms == old(chatRooms)
        && wakeups == old(wakeups)[room := room.expiry]
        && unchanged(room) && unchanged(room.Members())
      ensures old(room.expiry) <= now ==>
        && chatRooms == old(chatRooms) - {room.name}
        && wakeups == old(wakeups) - {room}
        && room.messages == old(room.messages) + [NOTICE_ROOM_DELETE]
        && (forall c :: c in room.clients ==> c.chatRoom == null)
        && (forall c :: c in room.clients ==> c.outbox == old(c.outbox) + [NOTICE_ROOM_DELETE])
    {
      if room.expiry > now {
        wakeups := wakeups[room := room.expiry];
        StillValid();
      } else {
        assert room.Valid() && Registered(room);
        room.Delete(now);
        chatRooms := chatRooms - {room.name};
        wakeups := wakeups - {room};
        ValidAfterDelete(room);
      }
    }

    /** Unregistering a room whose members were all returned to the lobby,
        together with its wake-up, keeps the invariant when nothing else that
        it reads changed. */
    twostate lemma ValidAfterDelete(room: ChatRoom)
      requires old(Valid()) && old(Registered(room))
      requires chatRooms == old(chatRooms) - {room.name} && wakeups == old(wakeups) - {room}
      requires clients == old(clients) && unchanged(room`clients)
      requires forall c :: c in old(room.clients) ==> c.chatRoom == null && unchanged(c`outboxClosed)
      requires forall c :: c in old(clients) && c !in old(room.clients) ==> unchanged(c`chatRoom, c`outboxClosed)
      requires forall r :: r in old(Rooms()) ==> unchanged(r`clients)
      ensures Valid()
    {
      forall n | n in chatRooms ensures chatRooms[n].Valid() {
        var r := chatRooms[n];
        assert r == old(chatRooms)[n] && r in old(Rooms()) && r != room && old(r.Valid());
        forall c | c in r.clients ensures c.chatRoom == r && !c.outboxClosed {
          assert c in old(clients) && old(c.chatRoom) == r && c !in room.clients;
        }
      }
      forall n, c | n in chatRooms && c in chatRooms[n].clients ensures c in clients {
        assert old(chatRooms)[n] in old(Rooms());
      }
      forall c | c in clients && c.chatRoom != null ensures Registered(c.chatRoom) && c in c.chatRoom.clients {
        var r := c.chatRoom;
        assert c !in room.clients && r == old(c.chatRoom) && r in old(Rooms()) && r != room;
      }
    }

    // -------------------------------------------------------------------
    // The message handlers, one per command

    /** Lobby.SendMessage. */
    method SendMessage(message: Message, now: int)
      requires Valid() && message.client in clients
      modifies message.client`outbox, RoomOf(message.client)`messages, RoomOf(message.client)`expiry
      modifies MatesOf(message.client)`outbox
      ensures Valid()
      ensures SendEffect(this, message, now)
    {
      if message.client.chatRoom == null {
        message.client.Send(ERROR_SEND);
        return;
      }
      var room := message.client.chatRoom;
      assert room.Valid() && Registered(room);
      room.Broadcast(Render(message, kitchen), now);
      StillValid();
    }

    /** Lobby.CreateChatRoom. */
    method CreateChatRoom(client: Client, name: string, now: int)
      requires Valid() && client in clients
      modifies this`chatRooms, this`wakeups, client`outbox
      ensures Valid()
      ensures CreateEffect(this, client, name, now)
    {
      if name in chatRooms {
        client.Send(ERROR_CREATE);
        StillValid();
        return;
      }
      var room := new ChatRoom(name, now);
      chatRooms := chatRooms[name := room];
      wakeups := wakeups[room := now + EXPIRY_TIME];
      client.Send(CreatedNotice(room.name));
      ValidAfterCreate(room);
    }

    /** Registering a new empty room under its own name, with a wake-up,
        keeps the invariant when nothing else that it reads changed. */
    twostate lemma ValidAfterCreate(new room: ChatRoom)
      requires old(Valid()) && fresh(room) && room.name !in old(chatRooms)
      requires room.clients == []
      requires chatRooms == old(chatRooms)[room.name := room]
      requires room in wakeups && wakeups.Keys == old(wakeups).Keys + {room}
      requires clients == old(clients)
      requires forall c :: c in old(clients) ==> unchanged(c`chatRoom, c`outboxClosed)
      requires forall r :: r in old(Rooms()) ==> unchanged(r`clients)
      ensures Valid()
    {
      forall n, c | n in chatRooms && c in chatRooms[n].clients ensures c in clients {
        assert n != room.name;
        assert old(chatRooms)[n] in old(Rooms());
      }
      forall n | n in chatRooms ensures chatRooms[n].Valid() {
        var r := chatRooms[n];
        if n != room.name {
          assert r == old(chatRooms)[n] && old(r.Valid());
          assert r in old(Rooms());
          forall c | c in r.clients ensures c.chatRoom == r && !c.outboxClosed {
            assert c in old(clients);
          }
        } else {
          assert r == room && r.clients == [];
        }
      }
      forall c | c in clients && c.chatRoom != null ensures Registered(c.chatRoom) && c in c.chatRoom.clients {
        assert c in old(clients);
        var r := c.chatRoom;
        assert r == old(c.chatRoom) && old(Registered(r)) && c in old(r.clients);
        assert r in old(Rooms()) && r != room;
      }
    }

    /** The rooms a /join of `name` by `c` may change: its own room and the
        named one; none when no room has that name. */
    ghost function JoinRooms(c: Client, name: string): set<ChatRoom>
      reads this`chatRooms, c`chatRoom
    {
      if name in chatRooms then RoomOf(c) + {chatRooms[name]} else {}
    }

    /** The clients a /join of `name` by `c` may send to: `c`, and the
        members of the rooms it may change. */
    ghost function JoinHearers(c: Client, name: string): set<Client>
      reads this`chatRooms, c`chatRoom, RoomOf(c)`clients, Rooms()`clients
    {
      if name in chatRooms then {c} + MatesOf(c) + chatRooms[name].Members() else {c}
    }

    /** Lobby.JoinChatRoom: an unknown name is refused; otherwise a client in
        a room leaves it through LeaveChatRoom first, then joins the named
        room. */
    method JoinChatRoom(client: Client, name: string, now: int)
      requires Valid() && client in clients
      modifies client`chatRoom, JoinRooms(client, name)`clients, JoinRooms(client, name)`messages
      modifies JoinRooms(client, name)`expiry, JoinHearers(client, name)`outbox
      ensures Valid()
      ensures JoinEffect(this, client, name, now)
      ensures name in old(chatRooms) ==>
        forall n :: n in chatRooms ==> (client in chatRooms[n].clients <==> n == name)
    {
      if name !in chatRooms {
        client.Send(ERROR_JOIN);
        return;
      }
      var room := chatRooms[name];
      if client.chatRoom == null {
        JoinRoom(room, client, now);
      } else if client.chatRoom == room {
        Rejoin(client, now);
      } else {
        MoveAcross(client, room, now);
      }
    }

    /** JoinChatRoom naming the client's own room: LeaveChatRoom takes its
        room branch, and the client joins the room it just left. */
    method Rejoin(client: Client, now: int)
      requires Valid() && client in clients && client.chatRoom != null
      modifies client`chatRoom, client`outbox, client.chatRoom`clients, client.chatRoom`messages
      modifies client.chatRoom`expiry, client.chatRoom.Members()`outbox
      ensures Valid()
      ensures Moved(client, old(client.chatRoom), old(client.chatRoom), now)
      ensures forall n :: n in chatRooms ==> (client in chatRooms[n].clients <==> n == old(client.chatRoom).name)
    {
      var room := client.chatRoom;
      assert Registered(room) && client in room.clients;
      LeaveChatRoom(client, now);
      label left:
      JoinRoom(room, client, now);
      ghost var L := LeaveNotice(client.name);
      ghost var J := JoinNotice(client.name);
      forall m | m in old(room.clients) && m != client
        ensures m.outbox == old(m.outbox) + [L, J]
      {
        assert m in old@left(room.clients);
        AppendTwo(old(m.outbox), L, J);
      }
    }

    /** JoinChatRoom naming another room than the client's: LeaveChatRoom
        takes its room branch, then the client joins the named room. */
    method MoveAcross(client: Client, room: ChatRoom, now: int)
      requires Valid() && client in clients && client.chatRoom != null
      requires Registered(room) && client.chatRoom != room
      modifies client`chatRoom, client`outbox, client.chatRoom`clients, client.chatRoom`messages
      modifies client.chatRoom`expiry, client.chatRoom.Members()`outbox
      modifies room`clients, room`messages, room`expiry, room.Members()`outbox
      ensures Valid()
      ensures Moved(client, old(client.chatRoom), room, now)
      ensures forall n :: n in chatRooms ==> (client in chatRooms[n].clients <==> n == room.name)
    {
      var r0 := client.chatRoom;
      assert Registered(r0) && client in r0.clients;
      LeaveChatRoom(client, now);
      label left:
      JoinRoom(room, client, now);
      forall m | m in old(room.clients) && m != client
        ensures m.outbox == old(m.outbox) + [JoinNotice(client.name)]
      {
        assert old(m.chatRoom) == room && m !in old(r0.clients);
        assert m in old@left(room.clients);
      }
      forall m | m in old(r0.clients) && m != client
        ensures m.outbox == old(m.outbox) + [LeaveNotice(client.name)]
      {
        assert m in old@left(r0.clients) && m.chatRoom == r0 && m !in old@left(room.clients);
      }
    }

    /** Lobby.LeaveChatRoom. */
    method LeaveChatRoom(client: Client, now: int)
      requires Valid() && client in clients
      modifies client`outbox, client`chatRoom, RoomOf(client)`clients, RoomOf(client)`messages
      modifies RoomOf(client)`expiry, MatesOf(client)`outbox
      ensures Valid()
      ensures LeaveEffect(client, now)
    {
      if client.chatRoom == null {
        client.Send(ERROR_LEAVE);
        return;
      }
      LeaveRoom(client, now);
    }

    /** Lobby.ChangeName. */
    method ChangeName(client: Client, name: string, now: int)
      requires Valid() && client in clients
      modifies client`name, client`outbox, RoomOf(client)`messages, RoomOf(client)`expiry, MatesOf(client)`outbox
      ensures Valid()
      ensures NameEffect(client, name, now)
    {
      if client.chatRoom == null {
        client.Send(PersonalNameNotice(name));
      } else {
        var room := client.chatRoom;
        assert room.Valid() && Registered(room);
        room.Broadcast(RenameNotice(client.name, name), now);
      }
      client.name := name;
      StillValid();
    }

    /** Lobby.ListChatRooms: the header, one line per registered name in the
        order the map iteration visits them (returned as `order`), and a
        closing blank line. */
    method ListChatRooms(client: Client) returns (order: seq<string>)
      requires !client.outboxClosed
      modifies client`outbox
      ensures IsEnumeration(order, chatRooms.Keys)
      ensures client.outbox == old(client.outbox) + RoomListing(order)
    {
      ghost var before := client.outbox;
      client.Send("\n");
      client.Send("Chat Rooms:\n");
      ghost var header := client.outbox;
      AppendTwo(before, "\n", "Chat Rooms:\n");
      var names := chatRooms.Keys;
      order := [];
      var rest := names;
      while rest != {}
        invariant forall n :: n in order || n in rest <==> n in names
        invariant Distinct(order) && forall n :: n in order ==> n !in rest
        invariant client.outbox == header + RoomLines(order)
        decreases rest
      {
        var n :| n in rest;
        client.Send(RoomLine(n));
        RoomLinesAppend(order, n);
        AppendSnoc(header, RoomLines(order), RoomLine(n));
        DistinctAppend(order, n);
        order := order + [n];
        rest := rest - {n};
      }
      client.Send("\n");
      AppendAssoc(before, ["\n", "Chat Rooms:\n"], RoomLines(order), ["\n"]);
    }

    /** Lobby.Help. */
    method Help(client: Client)
      requires !client.outboxClosed
      modifies client`outbox
      ensures client.outbox == old(client.outbox) + HELP_TEXT
    {
      client.Send("\n");
      client.Send("Commands:\n");
      client.Send("/help - lists all commands\n");
      client.Send("/list - lists all chat rooms\n");
      client.Send("/create foo - creates a chat room named foo\n");
      client.Send("/join foo - joins a chat room named foo\n");
      client.Send("/leave - leaves the current chat room\n");
      client.Send("/name foo - changes your name to foo\n");
      client.Send("/quit - quits the program\n");
      client.Send("\n");
    }

    /** The rooms whose history and expiry a message may change: the
        sender's room for a chat line, /leave and /name, the two rooms of a
        /join, none otherwise. */
    ghost function RoomsFor(m: Message): set<ChatRoom>
      reads this`chatRooms, m.client`chatRoom
    {
      match Classify(m.text)
      case Send => RoomOf(m.client)
      case Leave => RoomOf(m.client)
      case Name(_) => RoomOf(m.client)
      case Join(name) => JoinRooms(m.client, name)
      case _ => {}
    }

    /** The rooms whose members a message may change: those of /join and
        /leave. */
    ghost function RegroupedFor(m: Message): set<ChatRoom>
      reads this`chatRooms, m.client`chatRoom
    {
      if Classify(m.text).Join? || Classify(m.text).Leave? then RoomsFor(m) else {}
    }

    /** The clients a message may send to: the sender, and the members of
        the rooms it may change; nobody for /quit. */
    ghost function HearersFor(m: Message): set<Client>
      reads this`chatRooms, m.client`chatRoom, RoomOf(m.client)`clients, Rooms()`clients
    {
      match Classify(m.text)
      case Send => {m.client} + MatesOf(m.client)
      case Leave => {m.client} + MatesOf(m.client)
      case Name(_) => {m.client} + MatesOf(m.client)
      case Join(name) => JoinHearers(m.client, name)
      case Quit => {}
      case _ => {m.client}
    }

    /** Lobby.Parse: the line's command, as Classify reads it, decides the
        handler; a line that is no command goes to SendMessage. */
    method Parse(message: Message, now: int)
      requires Valid() && message.client in clients
      modifies (if Classify(message.text).Create? then {this} else {})`chatRooms
      modifies (if Classify(message.text).Create? then {this} else {})`wakeups
      modifies RegroupedFor(message)`clients, RoomsFor(message)`messages, RoomsFor(message)`expiry
      modifies HearersFor(message)`outbox
      modifies (if Classify(message.text).Name? then {message.client} else {})`name
      modifies (if Classify(message.text).Join? || Classify(message.text).Leave? then {message.client} else {})`chatRoom
      modifies (if Classify(message.text).Quit? then {message.client} else {})`connClosed
      ensures Valid()
      ensures match Classify(message.text)
        case Send => SendEffect(this, message, now)
        case Create(name) => CreateEffect(this, message.client, name, now)
        case List => exists order :: Listed(this, message.client, order)
        case Join(name) => JoinEffect(this, message.client, name, now)
        case Leave => LeaveEffect(message.client, now)
        case Name(name) => NameEffect(message.client, name, now)
        case Help => Replied(message.client, HELP_TEXT)
        case Quit => message.client.connClosed
    {
      match Classify(message.text)
      case Send => SendMessage(message, now);
      case Create(name) => CreateChatRoom(message.client, name, now);
      case List =>
        var order := ListChatRooms(message.client);
        StillValid();
        assert Listed(this, message.client, order);
      case Join(name) => JoinChatRoom(message.client, name, now);
      case Leave => LeaveChatRoom(message.client, now);
      case Name(name) => ChangeName(message.client, name, now);
      case Help =>
        Help(message.client);
        StillValid();
      case Quit =>
        message.client.Quit();
        StillValid();
    }
  }
}
