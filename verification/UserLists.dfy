/** The user list of a channel and its replicas: what AddUser, RemoveUser and a username
    change send to each member, and what a member who folds those messages knows
    (UserChannel.hpp; SetUserData in CollabVmServer.hpp). */
module UserLists {
  import opened Bags
  import opened Wrappers

  datatype UserType = Guest | Regular | Admin

  datatype UserData = UserData(username: string, userType: UserType)

  datatype Entry = Entry(username: string, userType: UserType)

  /** The list messages; `forAdmin` marks the variant that also carries addresses. */
  datatype ListMessage =
    | Snapshot(forAdmin: bool, entries: seq<Entry>)
    | Added(forAdmin: bool, entry: Entry)
    | Removed(username: string)
    | Renamed(oldName: string, newName: string)

  /** The members, and for each what was queued to it, oldest first. */
  datatype State<C> = State(users: map<C, UserData>, outbox: map<C, seq<ListMessage>>)

  datatype Event<C> =
    | AddUser(client: C, data: UserData, order: seq<C>, earlier: seq<ListMessage>)
    | RemoveUser(client: C)
    | ChangeUsername(client: C, newName: string, newType: UserType)
    | Clear

  // ------------------------------------------------------------------ replicas

  function Names(entries: seq<Entry>): multiset<string> {
    if entries == [] then multiset{}
    else multiset{entries[0].username} + Names(entries[1..])
  }

  function Apply(known: multiset<string>, m: ListMessage): multiset<string> {
    match m
    case Snapshot(_, entries) => Names(entries)
    case Added(_, entry) => known + multiset{entry.username}
    case Removed(name) => known - multiset{name}
    case Renamed(oldName, newName) => known - multiset{oldName} + multiset{newName}
  }

  /** The user names a member knows after all its messages. */
  function Fold(messages: seq<ListMessage>): multiset<string> {
    if messages == [] then multiset{}
    else Apply(Fold(messages[..|messages| - 1]), messages[|messages| - 1])
  }

  function NamesOf<C(==)>(users: map<C, UserData>): map<C, string> {
    map c | c in users :: users[c].username
  }

  /** The user names in the channel, with repetitions. */
  ghost function Usernames<C>(users: map<C, UserData>): multiset<string> {
    Bag(NamesOf(users))
  }

  // --------------------------------------------------------------------- steps

  function Init<C>(): State<C> {
    State(map[], map[])
  }

  function EntryOf(d: UserData): Entry { Entry(d.username, d.userType) }

  /** Some order in which the hash table visits its members. */
  ghost predicate IsOrder<C>(order: seq<C>, users: map<C, UserData>) {
    && |order| == |users|
    && (forall i :: 0 <= i < |order| ==> order[i] in users)
    && (forall i, j :: 0 <= i < j < |order| ==> order[i] != order[j])
  }

  function ListEntries<C(==)>(order: seq<C>, users: map<C, UserData>): (r: seq<Entry>)
    requires forall i :: 0 <= i < |order| ==> order[i] in users
  {
    seq(|order|, i requires 0 <= i < |order| => EntryOf(users[order[i]]))
  }

  function Broadcast<C(==)>(s: State<C>, m: ListMessage): State<C>
    requires s.outbox.Keys == s.users.Keys
  {
    s.(outbox := map c | c in s.users :: s.outbox[c] + [m])
  }

  predicate Shaped<C>(s: State<C>) {
    s.outbox.Keys == s.users.Keys
  }

  /** `emplace` keeps the entry of a client that is already there. */
  function Emplace<C(==)>(users: map<C, UserData>, c: C, d: UserData): map<C, UserData> {
    if c in users then users else users[c := d]
  }

  function Announce<C(==)>(s: State<C>, c: C, d: UserData): State<C>
    requires Shaped(s)
  {
    s.(outbox := map k | k in s.users ::
         if k == c then s.outbox[k]
         else s.outbox[k] + [Added(s.users[k].userType.Admin?, EntryOf(d))])
  }

  lemma AddedIs<C>(s: State<C>, e: Event<C>, s1: State<C>)
    requires Shaped(s) && Enabled(s, e) && e.AddUser?
    requires s1.users == Emplace(s.users, e.client, e.data)
    requires s1.outbox == s.outbox[e.client :=
               e.earlier + [Snapshot(e.data.userType.Admin?, ListEntries(e.order, s1.users))]]
    ensures Shaped(s1)
    ensures Step(s, e) == if |s1.users| <= 1 then s1 else Announce(s1, e.client, e.data)
  {
  }

  lemma AnnouncedIs<C>(s: State<C>, c: C, d: UserData, outbox: map<C, seq<ListMessage>>)
    requires Shaped(s) && outbox.Keys == s.users.Keys
    requires forall k | k in s.users ::
               outbox[k] == if k == c then s.outbox[k]
                            else s.outbox[k] + [Added(s.users[k].userType.Admin?, EntryOf(d))]
    ensures State(s.users, outbox) == Announce(s, c, d)
  {
  }

  ghost predicate Enabled<C>(s: State<C>, e: Event<C>) {
    e.AddUser? ==>
      && IsOrder(e.order, Emplace(s.users, e.client, e.data))
      && (e.client in s.outbox ==> e.earlier == s.outbox[e.client])
  }

  ghost function Step<C>(s: State<C>, e: Event<C>): State<C>
    requires Shaped(s) && Enabled(s, e)
  {
    match e
    case AddUser(c, d, order, earlier) =>
      var users := Emplace(s.users, c, d);
      var snapshot := Snapshot(d.userType.Admin?, ListEntries(order, users));
      var s1 := State(users, s.outbox[c := earlier + [snapshot]]);
      if |users| <= 1 then s1 else Announce(s1, c, d)
    case RemoveUser(c) =>
      if c !in s.users then s
      else Broadcast(State(s.users - {c}, s.outbox - {c}), Removed(s.users[c].username))
    case ChangeUsername(c, newName, newType) =>
      if c !in s.users then s
      else Broadcast(s.(users := s.users[c := UserData(newName, newType)]),
                     Renamed(s.users[c].username, newName))
    case Clear => State(map[], map[])
  }

  // --------------------------------------------------------------- replication

  /** Every member knows exactly the names in the channel. */
  ghost predicate Replicated<C(!new)>(s: State<C>) {
    && Shaped(s)
    && forall c | c in s.users :: Fold(s.outbox[c]) == Usernames(s.users)
  }

  lemma UsernamesWithout<C>(users: map<C, UserData>, c: C)
    requires c in users
    ensures Usernames(users) == multiset{users[c].username} + Usernames(users - {c})
  {
    BagWithout(NamesOf(users), c);
    assert NamesOf(users - {c}) == NamesOf(users) - {c};
  }

  lemma UsernamesUpdate<C>(users: map<C, UserData>, c: C, d: UserData)
    ensures Usernames(users[c := d]) == multiset{d.username} + Usernames(users - {c})
  {
    UsernamesWithout(users[c := d], c);
    assert users[c := d] - {c} == users - {c};
  }

  lemma UsernamesJoin<C>(users: map<C, UserData>, c: C, d: UserData)
    requires c !in users
    ensures Usernames(users[c := d]) == Usernames(users) + multiset{d.username}
  {
    UsernamesUpdate(users, c, d);
    assert users - {c} == users;
    Bags.Commute(d.username, Usernames(users));
  }

  lemma UsernamesRename<C>(users: map<C, UserData>, c: C, d: UserData)
    requires c in users
    ensures Usernames(users[c := d]) == Apply(Usernames(users), Renamed(users[c].username, d.username))
  {
    UsernamesWithout(users, c);
    UsernamesUpdate(users, c, d);
    Bags.Replace(users[c].username, d.username, Usernames(users - {c}));
  }

  /** A snapshot lists exactly the channel's names, whatever the order of the table. */
  lemma {:induction false} SnapshotIsComplete<C>(order: seq<C>, users: map<C, UserData>)
    requires IsOrder(order, users)
    ensures Names(ListEntries(order, users)) == Usernames(users)
    decreases |order|
  {
    if order != [] {
      var c, rest := order[0], order[1..];
      assert |users.Keys| == |users| && |(users - {c}).Keys| == |users - {c}|;
      assert (users - {c}).Keys == users.Keys - {c};
      SnapshotIsComplete(rest, users - {c});
      assert ListEntries(order, users)[1..] == ListEntries(rest, users - {c});
      UsernamesWithout(users, c);
    }
  }

  lemma FoldSnoc(messages: seq<ListMessage>, m: ListMessage)
    ensures Fold(messages + [m]) == Apply(Fold(messages), m)
  {
    assert (messages + [m])[..|messages|] == messages;
  }

  lemma SomeoneElse<C>(users: map<C, UserData>, c: C)
    requires c in users
    ensures |users| > 1 <==> exists k :: k in users && k != c
  {
    assert |users| == |users.Keys|;
    assert users.Keys == {c} + (users.Keys - {c});
    if |users| > 1 {
      assert users.Keys - {c} != {};
      var k :| k in users.Keys - {c};
      assert k in users && k != c;
    }
  }

  /** Who is sent what by AddUser. */
  lemma AddSends<C(!new)>(s: State<C>, e: Event<C>)
    requires Shaped(s) && Enabled(s, e) && e.AddUser?
    ensures var s' := Step(s, e);
            && s'.users == Emplace(s.users, e.client, e.data) && Shaped(s')
            && s'.outbox[e.client] ==
                 e.earlier + [Snapshot(e.data.userType.Admin?, ListEntries(e.order, s'.users))]
            && forall k | k in s.users && k != e.client ::
                 s'.outbox[k] == s.outbox[k] + [Added(s.users[k].userType.Admin?, EntryOf(e.data))]
  {
    var users := Emplace(s.users, e.client, e.data);
    SomeoneElse(users, e.client);
    assert forall k | k in s.users && k != e.client :: k in users;
  }

  /** What the members know after AddUser. */
  lemma FoldsAfterAdd<C(!new)>(s: State<C>, e: Event<C>)
    requires Replicated(s) && Enabled(s, e) && e.AddUser?
    ensures var s' := Step(s, e);
            && Shaped(s')
            && Fold(s'.outbox[e.client]) == Usernames(s'.users)
            && forall k | k in s.users && k != e.client ::
                 Fold(s'.outbox[k]) == Usernames(s.users) + multiset{e.data.username}
  {
    AddSends(s, e);
    var s' := Step(s, e);
    SnapshotIsComplete(e.order, s'.users);
    FoldSnoc(e.earlier, Snapshot(e.data.userType.Admin?, ListEntries(e.order, s'.users)));
    forall k | k in s.users && k != e.client
      ensures Fold(s'.outbox[k]) == Usernames(s.users) + multiset{e.data.username}
    {
      FoldSnoc(s.outbox[k], Added(s.users[k].userType.Admin?, EntryOf(e.data)));
    }
  }

  lemma AddNewKeepsReplicas<C(!new)>(s: State<C>, e: Event<C>)
    requires Replicated(s) && Enabled(s, e) && e.AddUser? && e.client !in s.users
    ensures Replicated(Step(s, e))
  {
    FoldsAfterAdd(s, e);
    UsernamesJoin(s.users, e.client, e.data);
  }

  lemma AddAgainKeepsReplicas<C(!new)>(s: State<C>, e: Event<C>)
    requires Replicated(s) && Enabled(s, e) && e.AddUser? && e.client in s.users
    ensures Replicated(Step(s, e)) <==> |s.users| == 1
  {
    FoldsAfterAdd(s, e);
    SomeoneElse(s.users, e.client);
    assert |s.users| > 0 by { assert e.client in s.users.Keys; }
    if k :| k in s.users && k != e.client {
      assert |Usernames(s.users) + multiset{e.data.username}| == |Usernames(s.users)| + 1;
    }
  }

  /** AddUser keeps the replicas exact unless it repeats a member whom others can see. */
  lemma AddKeepsReplicas<C(!new)>(s: State<C>, e: Event<C>)
    requires Replicated(s) && Enabled(s, e) && e.AddUser?
    ensures Replicated(Step(s, e)) <==> e.client !in s.users || |s.users| == 1
  {
    if e.client in s.users { AddAgainKeepsReplicas(s, e); } else { AddNewKeepsReplicas(s, e); }
  }

  lemma NamesAfterRemoval<C>(users: map<C, UserData>, c: C)
    requires c in users
    ensures Apply(Usernames(users), Removed(users[c].username)) == Usernames(users - {c})
  {
    UsernamesWithout(users, c);
    Bags.TakeOut(users[c].username, Usernames(users - {c}));
  }

  /** Who is sent what by RemoveUser. */
  lemma RemoveSends<C(!new)>(s: State<C>, c: C)
    requires Shaped(s) && c in s.users
    ensures var s' := Step(s, RemoveUser(c));
            && s'.users == s.users - {c} && Shaped(s')
            && forall k | k in s'.users ::
                 k in s.users && s'.outbox[k] == s.outbox[k] + [Removed(s.users[c].username)]
  {
  }

  lemma RemoveKeepsReplicas<C(!new)>(s: State<C>, c: C)
    requires Replicated(s)
    ensures Replicated(Step(s, RemoveUser(c)))
  {
    if c in s.users {
      RemoveSends(s, c);
      NamesAfterRemoval(s.users, c);
      forall k | k in s.users - {c}
        ensures Fold(s.outbox[k] + [Removed(s.users[c].username)]) == Usernames(s.users - {c})
      {
        FoldSnoc(s.outbox[k], Removed(s.users[c].username));
      }
    }
  }

  lemma RenameKeepsReplicas<C(!new)>(s: State<C>, c: C, newName: string, newType: UserType)
    requires Replicated(s)
    ensures Replicated(Step(s, ChangeUsername(c, newName, newType)))
  {
    if c in s.users {
      var m := Renamed(s.users[c].username, newName);
      var s' := Step(s, ChangeUsername(c, newName, newType));
      UsernamesRename(s.users, c, UserData(newName, newType));
      forall k | k in s'.users ensures Fold(s'.outbox[k]) == Usernames(s'.users) {
        FoldSnoc(s.outbox[k], m);
      }
    }
  }

  /** Every AddUser is of a client that is not in the channel. */
  ghost predicate ValidRun<C>(s: State<C>, es: seq<Event<C>>)
    requires Shaped(s)
    decreases |es|
  {
    es == [] || (&& Enabled(s, es[0])
                 && (es[0].AddUser? ==> es[0].client !in s.users)
                 && Shaped(Step(s, es[0]))
                 && ValidRun(Step(s, es[0]), es[1..]))
  }

  ghost function Run<C>(s: State<C>, es: seq<Event<C>>): State<C>
    requires Shaped(s) && ValidRun(s, es)
    decreases |es|
  {
    if es == [] then s else Run(Step(s, es[0]), es[1..])
  }

  /** After any run, folding the messages queued to a member gives the channel's names. */
  lemma {:induction false} ReplicasStayExact<C(!new)>(s: State<C>, es: seq<Event<C>>)
    requires Replicated(s) && ValidRun(s, es)
    ensures Replicated(Run(s, es))
    decreases |es|
  {
    if es != [] {
      match es[0] {
        case AddUser(_, _, _, _) => AddKeepsReplicas(s, es[0]);
        case RemoveUser(c) => RemoveKeepsReplicas(s, c);
        case ChangeUsername(c, newName, newType) => RenameKeepsReplicas(s, c, newName, newType);
        case Clear =>
      }
      ReplicasStayExact(Step(s, es[0]), es[1..]);
    }
  }

  lemma ReplicasFromEmpty<C(!new)>(es: seq<Event<C>>)
    requires ValidRun(Init<C>(), es)
    ensures Replicated(Run(Init<C>(), es))
  {
    ReplicasStayExact(Init<C>(), es);
  }

  // ------------------------------------------------- users, from the events alone

  lemma {:induction false} RunInit<C>(s: State<C>, es: seq<Event<C>>)
    requires Shaped(s) && ValidRun(s, es) && es != []
    ensures var init, e := es[..|es| - 1], es[|es| - 1];
            && ValidRun(s, init) && Shaped(Run(s, init)) && Enabled(Run(s, init), e)
            && (e.AddUser? ==> e.client !in Run(s, init).users)
            && Run(s, es) == Step(Run(s, init), e)
    decreases |es|
  {
    if |es| == 1 {
      assert es[..0] == [] && es[1..] == [];
    } else {
      RunInit(Step(s, es[0]), es[1..]);
      assert es[1..][..|es| - 2] == es[..|es| - 1][1..];
    }
  }

  /** The name and the type that a member came with or was given last. */
  function LastData<C(==)>(es: seq<Event<C>>, c: C): Option<UserData> {
    if es == [] then None
    else
      var before := LastData(es[..|es| - 1], c);
      match es[|es| - 1]
      case AddUser(k, data, _, _) => if k == c then Some(data) else before
      case RemoveUser(k) => if k == c then None else before
      case ChangeUsername(k, name, newType) =>
        if k == c && before.Some? then Some(UserData(name, newType)) else before
      case Clear => None
  }

  function DataIn<C(==)>(s: State<C>, c: C): Option<UserData> {
    if c in s.users then Some(s.users[c]) else None
  }

  lemma DataStep<C>(s: State<C>, e: Event<C>, c: C)
    requires Shaped(s) && Enabled(s, e) && (e.AddUser? ==> e.client !in s.users)
    ensures var before := DataIn(s, c);
            DataIn(Step(s, e), c) ==
              match e
              case AddUser(k, data, _, _) => if k == c then Some(data) else before
              case RemoveUser(k) => if k == c then None else before
              case ChangeUsername(k, name, newType) =>
                if k == c && before.Some? then Some(UserData(name, newType)) else before
              case Clear => None
  {
  }

  /** Adding a member again leaves its name and type as they were. */
  lemma AddedAgainKeepsData<C>(s: State<C>, e: Event<C>)
    requires Shaped(s) && Enabled(s, e) && e.AddUser? && e.client in s.users
    ensures Step(s, e).users == s.users
  {
    var users := Emplace(s.users, e.client, e.data);
    var s1 := State(users, s.outbox[e.client := e.earlier + [Snapshot(e.data.userType.Admin?, ListEntries(e.order, users))]]);
    AddedIs(s, e, s1);
  }

  /** Over every run: who is in the channel, under which name and as what. */
  lemma {:induction false} UsersAreTold<C>(es: seq<Event<C>>, c: C)
    requires ValidRun(Init<C>(), es)
    ensures DataIn(Run(Init<C>(), es), c) == LastData(es, c)
    decreases |es|
  {
    if es != [] {
      RunInit(Init<C>(), es);
      UsersAreTold(es[..|es| - 1], c);
      DataStep(Run(Init<C>(), es[..|es| - 1]), es[|es| - 1], c);
    }
  }

  /** Over every run: a newcomer is sent, last, the name and the type of every member and of
      itself, as they are then; with addresses exactly if it is an admin. */
  lemma NewcomerSees<C(!new)>(es: seq<Event<C>>, e: Event<C>)
    requires ValidRun(Init<C>(), es) && Shaped(Run(Init<C>(), es)) && Enabled(Run(Init<C>(), es), e)
    requires e.AddUser? && e.client !in Run(Init<C>(), es).users
    ensures var s' := Step(Run(Init<C>(), es), e);
            && e.client in s'.outbox && s'.outbox[e.client] != [] && |e.order| == |s'.users|
            && (forall c :: c in s'.users <==> c == e.client || LastData(es, c).Some?)
            && var m := s'.outbox[e.client][|s'.outbox[e.client]| - 1];
            && m.Snapshot? && (m.forAdmin <==> e.data.userType == Admin) && |m.entries| == |e.order|
            && forall i :: 0 <= i < |e.order| ==>
                 LastData(es + [e], e.order[i]) == Some(UserData(m.entries[i].username, m.entries[i].userType))
  {
    var s := Run(Init<C>(), es);
    AddSends(s, e);
    assert (es + [e])[..|es|] == es;
    forall c ensures (c in s.users <==> LastData(es, c).Some?) && (c in s.users ==> LastData(es, c) == Some(s.users[c])) {
      UsersAreTold(es, c);
    }
  }

  // --------------------------------------------------- a member who is added again

  const ANN := UserData("ann", Regular)

  const BOB := UserData("bob", Regular)

  const BOTH: State<int> := State(
    map[1 := ANN, 2 := BOB],
    map[1 := [Snapshot(false, [Entry("ann", Regular)]), Added(false, Entry("bob", Regular))],
        2 := [Snapshot(false, [Entry("ann", Regular), Entry("bob", Regular)])]])

  const ALONE: State<int> := State(map[1 := ANN], map[1 := [Snapshot(false, [Entry("ann", Regular)])]])

  lemma FirstJoins()
    ensures Enabled(Init<int>(), AddUser(1, ANN, [1], []))
    ensures Step(Init<int>(), AddUser(1, ANN, [1], [])) == ALONE
  {
    var s := Step(Init<int>(), AddUser(1, ANN, [1], []));
    assert ListEntries([1], s.users) == [Entry("ann", Regular)];
    assert s.users == ALONE.users && s.outbox[1] == ALONE.outbox[1];
    assert s.outbox == ALONE.outbox;
  }

  lemma SecondJoins()
    ensures Enabled(ALONE, AddUser(2, BOB, [1, 2], []))
    ensures Step(ALONE, AddUser(2, BOB, [1, 2], [])) == BOTH
  {
    var s := Step(ALONE, AddUser(2, BOB, [1, 2], []));
    assert s.users == BOTH.users;
    assert ListEntries([1, 2], s.users) == [Entry("ann", Regular), Entry("bob", Regular)];
    assert s.outbox[1] == BOTH.outbox[1] && s.outbox[2] == BOTH.outbox[2];
    assert s.outbox == BOTH.outbox;
  }

  lemma BothJoin() returns (es: seq<Event<int>>)
    ensures ValidRun(Init(), es) && Run(Init(), es) == BOTH
  {
    FirstJoins();
    SecondJoins();
    var a, b := AddUser(1, ANN, [1], []), AddUser(2, BOB, [1, 2], []);
    RunPrepend(ALONE, b, []);
    RunPrepend(Init(), a, [b]);
    assert [b] + [] == [b] && [a] + [b] == [a, b];
    es := [a, b];
  }

  lemma RunPrepend<C>(s: State<C>, e: Event<C>, es: seq<Event<C>>)
    requires Shaped(s) && Enabled(s, e) && (e.AddUser? ==> e.client !in s.users)
    requires Shaped(Step(s, e)) && ValidRun(Step(s, e), es)
    ensures ValidRun(s, [e] + es) && Run(s, [e] + es) == Run(Step(s, e), es)
  {
    assert ([e] + es)[1..] == es;
  }

  /** Two clients join and the second joins again: the first one then knows its name twice. */
  lemma AddedAgainIsCountedTwice() returns (es: seq<Event<int>>, again: Event<int>)
    ensures ValidRun(Init(), es) && Shaped(Run(Init(), es)) && Enabled(Run(Init(), es), again) && again.AddUser?
    ensures var s := Step(Run(Init(), es), again);
            && s.users == map[1 := ANN, 2 := BOB]
            && 1 in s.outbox && Fold(s.outbox[1]) == multiset{"ann", "bob", "bob"}
  {
    es := BothJoin();
    again := AddUser(2, BOB, [1, 2], BOTH.outbox[2]);
    JoinsAgain();
  }

  lemma JoinsAgain()
    ensures Enabled(BOTH, AddUser(2, BOB, [1, 2], BOTH.outbox[2]))
    ensures var s := Step(BOTH, AddUser(2, BOB, [1, 2], BOTH.outbox[2]));
            s.users == BOTH.users && 1 in s.outbox && Fold(s.outbox[1]) == multiset{"ann", "bob", "bob"}
  {
    var s := Step(BOTH, AddUser(2, BOB, [1, 2], BOTH.outbox[2]));
    assert s.outbox[1] == BOTH.outbox[1] + [Added(false, Entry("bob", Regular))];
    FoldBoth();
    FoldSnoc(BOTH.outbox[1], Added(false, Entry("bob", Regular)));
  }

  lemma FoldBoth()
    ensures Fold(BOTH.outbox[1]) == multiset{"ann", "bob"}
  {
    var m1, m2 := Snapshot(false, [Entry("ann", Regular)]), Added(false, Entry("bob", Regular));
    FoldSnoc([], m1);
    FoldSnoc([m1], m2);
    assert [] + [m1] == [m1] && [m1] + [m2] == BOTH.outbox[1];
    assert [Entry("ann", Regular)][1..] == [];
  }
}
