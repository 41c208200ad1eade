/** A user channel that pushes list messages to its clients (UserChannel.hpp). */
module UserChannels {
  import opened UserLists

  /** A connected socket, reduced to what this channel has queued to it. */
  class Client {
    var outbox: seq<ListMessage>

    constructor ()
      ensures outbox == []
    {
      outbox := [];
    }

    method QueueMessage(message: ListMessage)
      modifies this
      ensures outbox == old(outbox) + [message]
    {
      outbox := outbox + [message];
    }
  }

  class UserChannel {
    var users: map<Client, UserData>

    ghost function Channel(): State<Client>
      reads this, users.Keys
      ensures Shaped(Channel())
    {
      State(users, map c | c in users :: c.outbox)
    }

    constructor ()
      ensures Channel() == State(map[], map[])
    {
      users := map[];
      new;
      assert Channel().outbox == map[];
    }

    /** The list message; `order` is the order in which the table visits the users. */
    method CreateUserListMessage(forAdmin: bool, order: seq<Client>) returns (message: ListMessage)
      requires IsOrder(order, users)
      ensures message == Snapshot(forAdmin, ListEntries(order, users))
    {
      var entries := [];
      for i := 0 to |order|
        invariant entries == ListEntries(order, users)[..i]
      {
        entries := entries + [EntryOf(users[order[i]])];
      }
      message := Snapshot(forAdmin, entries);
    }

    method BroadcastMessage(message: ListMessage)
      modifies users.Keys
      ensures Channel() == Broadcast(old(Channel()), message)
    {
      var todo := users.Keys;
      while todo != {}
        invariant todo <= users.Keys
        invariant forall c | c in users ::
                    c.outbox == if c in todo then old(c.outbox) else old(c.outbox) + [message]
        decreases |todo|
      {
        var c :| c in todo;
        c.QueueMessage(message);
        todo := todo - {c};
      }
    }

    /** Tells everyone but the new client, in the variant each is entitled to. */
    method AnnounceUser(client: Client, data: UserData)
      modifies users.Keys
      ensures Channel() == Announce(old(Channel()), client, data)
    {
      var entry := EntryOf(data);
      var todo := users.Keys;
      while todo != {}
        invariant todo <= users.Keys
        invariant forall c | c in users ::
                    c.outbox == if c in todo || c == client then old(c.outbox)
                                else old(c.outbox) + [Added(users[c].userType.Admin?, entry)]
        decreases |todo|
      {
        var c :| c in todo;
        if c != client {
          c.QueueMessage(Added(users[c].userType.Admin?, entry));
        }
        todo := todo - {c};
      }
      AnnouncedIs(old(Channel()), client, data, Channel().outbox);
    }

    /** The client becomes a member, unless it is one, and is sent the whole list. */
    method Enter(data: UserData, client: Client, order: seq<Client>)
      requires IsOrder(order, Emplace(users, client, data))
      modifies this, client
      ensures users == Emplace(old(users), client, data)
      ensures Channel().outbox == old(Channel()).outbox[client :=
                old(client.outbox) + [Snapshot(data.userType.Admin?, ListEntries(order, users))]]
    {
      if client !in users {
        users := users[client := data];
      }
      var message := CreateUserListMessage(data.userType.Admin?, order);
      client.QueueMessage(message);
      ghost var expected := old(Channel()).outbox[client := old(client.outbox) + [message]];
      assert expected.Keys == users.Keys;
      forall k | k in users ensures k.outbox == expected[k] {}
    }

    method AddUser(data: UserData, client: Client, order: seq<Client>)
      requires IsOrder(order, Emplace(users, client, data))
      modifies this, users.Keys, client
      ensures users == Emplace(old(users), client, data)
      ensures Channel() ==
                Step(old(Channel()), UserLists.AddUser(client, data, order, old(client.outbox)))
    {
      Enter(data, client, order);
      AddedIs(old(Channel()), UserLists.AddUser(client, data, order, old(client.outbox)), Channel());
      if |users| <= 1 {
        return;
      }
      AnnounceUser(client, data);
    }

    method RemoveUser(client: Client)
      modifies this, users.Keys
      ensures Channel() == Step(old(Channel()), UserLists.RemoveUser(client))
      ensures client.outbox == old(client.outbox)
    {
      if client !in users {
        return;
      }
      ghost var before := Channel();
      var message := Removed(users[client].username);
      users := users - {client};
      assert Channel().outbox == before.outbox - {client};
      BroadcastMessage(message);
    }

    method ChangeUsername(client: Client, newName: string, newType: UserType)
      modifies this, users.Keys
      ensures Channel() == Step(old(Channel()), UserLists.ChangeUsername(client, newName, newType))
    {
      if client !in users {
        return;
      }
      ghost var before := Channel();
      var message := Renamed(users[client].username, newName);
      users := users[client := UserData(newName, newType)];
      assert Channel().outbox == before.outbox;
      BroadcastMessage(message);
    }

    method Clear()
      modifies this
      ensures Channel() == Step(old(Channel()), UserLists.Clear)
    {
      users := map[];
      assert Channel().outbox == map[];
    }
  }
}
