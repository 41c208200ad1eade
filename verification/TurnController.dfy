/** The turn controller as the source writes it: an object that re-arms one timer and
    keeps each queued user's position in the user object (TurnController.hpp). */
module TurnControllers {
  import opened Wrappers
  import T = TurnQueue

  class User {
    var turnQueuePosition: Option<nat>

    constructor ()
      ensures turnQueuePosition == None
    {
      turnQueuePosition := None;
    }
  }

  class TurnController {
    var clock: int
    var turnTime: nat
    var turnQueue: seq<User>
    var pausedMs: Option<nat>
    var expiry: int
    var wait: Option<User>
    var late: multiset<User>
    var shown: Option<T.Notice<User>>
    ghost var users: set<User>  // everyone whose position this controller keeps

    ghost function State(): T.State<User>
      reads this
    {
      T.State(clock, turnTime, turnQueue, pausedMs, expiry, wait, late, shown)
    }

    /** Each stored position is the user's index; users outside the queue have none. */
    ghost predicate Valid()
      reads this, users
    {
      && T.Distinct(turnQueue)
      && (forall u | u in turnQueue :: u in users)
      && (forall u | u in users ::
            u.turnQueuePosition == if u in turnQueue then Some(T.IndexOf(turnQueue, u)) else None)
    }

    /** The same, index by index. */
    ghost predicate Indexed()
      reads this, users
    {
      && (forall j :: 0 <= j < |turnQueue| ==> turnQueue[j] in users)
      && (forall j :: 0 <= j < |turnQueue| ==> turnQueue[j].turnQueuePosition == Some(j))
      && (forall u | u in users && u !in turnQueue :: u.turnQueuePosition == None)
    }

    lemma ValidIsIndexed()
      ensures Valid() <==> Indexed()
    {
      if Valid() {
        forall j | 0 <= j < |turnQueue| ensures turnQueue[j].turnQueuePosition == Some(j) {
          T.IndexUnique(turnQueue, j);
        }
      }
      if Indexed() {
        forall i, j | 0 <= i < j < |turnQueue| ensures turnQueue[i] != turnQueue[j] {
          assert turnQueue[i].turnQueuePosition != turnQueue[j].turnQueuePosition;
        }
        forall u | u in turnQueue ensures u in users && u.turnQueuePosition == Some(T.IndexOf(turnQueue, u)) {
          assert turnQueue[T.IndexOf(turnQueue, u)] == u;
        }
      }
    }

    constructor (now: int)
      ensures Valid() && State() == T.Init(now) && users == {}
    {
      clock, turnTime, turnQueue, pausedMs := now, 0, [], None;
      expiry, wait, late, shown := 0, None, multiset{}, None;
      users := {};
    }

    /** A user object enters this controller's care; it must not be queued elsewhere. */
    method Adopt(user: User)
      requires Valid() && user.turnQueuePosition == None && user !in users
      modifies this`users
      ensures Valid() && State() == old(State()) && users == old(users) + {user}
    {
      users := users + {user};
    }

    method Tick(elapsed: nat)
      requires Valid()
      modifies this`clock
      ensures Valid() && State() == T.Step(old(State()), T.Tick(elapsed))
    {
      clock := clock + elapsed;
    }

    method GetTimeRemaining() returns (ms: int)
      ensures ms == T.TimeRemaining(State())
    {
      ms := T.ToMs(expiry - clock);
    }

    method Show(timeMs: int)
      modifies this`shown
      ensures State() == T.Show(old(State()), timeMs)
    {
      shown := Some(T.Notice(turnQueue, pausedMs.Some?, timeMs));
    }

    method UpdateCurrentTurn(timeRemaining: nat)
      modifies this`expiry, this`wait, this`shown
      ensures State() == T.UpdateCurrentTurn(old(State()), timeRemaining)
    {
      if turnQueue == [] {
        Show(0);
        return;
      }
      if pausedMs.None? {
        expiry := clock + timeRemaining;
        wait := Some(turnQueue[0]);
      }
      Show(T.ToMs(timeRemaining));
    }

    method Append(user: User)
      requires Valid() && user in users && user !in turnQueue
      modifies this`turnQueue, user
      ensures Valid() && turnQueue == old(turnQueue) + [user] && user.turnQueuePosition == Some(|old(turnQueue)|)
    {
      ValidIsIndexed();
      turnQueue := turnQueue + [user];
      user.turnQueuePosition := Some(|turnQueue| - 1);
      ValidIsIndexed();
    }

    method RequestTurn(user: User) returns (queued: bool)
      requires Valid() && user in users
      modifies this, user
      ensures Valid() && users == old(users)
      ensures queued <==> user !in old(turnQueue)
      ensures State() == T.Step(old(State()), T.Request(user))
    {
      if user.turnQueuePosition.Some? {
        return false;
      }
      Append(user);
      if user.turnQueuePosition == Some(0) {
        UpdateCurrentTurn(turnTime);
      } else {
        var left := GetTimeRemaining();
        Show(left);
      }
      return true;
    }

    /** Everyone from `position` on moves up by one. */
    method MoveUp(position: nat)
      requires position <= |turnQueue|
      requires forall j :: 0 <= j < |turnQueue| ==> turnQueue[j] in users
      requires forall j :: 0 <= j < |turnQueue| ==>
                 turnQueue[j].turnQueuePosition == Some(if j < position then j else j + 1)
      modifies users`turnQueuePosition
      ensures forall j :: 0 <= j < |turnQueue| ==> turnQueue[j].turnQueuePosition == Some(j)
      ensures forall u | u in users && u !in turnQueue :: u.turnQueuePosition == old(u.turnQueuePosition)
    {
      var k := position;
      while k < |turnQueue|
        invariant position <= k <= |turnQueue|
        invariant forall j :: 0 <= j < |turnQueue| ==>
                    turnQueue[j].turnQueuePosition == Some(if j < k then j else j + 1)
        invariant forall u | u in users && u !in turnQueue :: u.turnQueuePosition == old(u.turnQueuePosition)
      {
        var next := turnQueue[k];
        assert forall j :: 0 <= j < |turnQueue| && j != k ==> turnQueue[j] != next;
        next.turnQueuePosition := Some(next.turnQueuePosition.value - 1);
        k := k + 1;
      }
    }

    /** Takes the user at `position` out of the queue and moves everyone behind up. */
    method Erase(user: User, position: nat)
      requires Valid() && position < |turnQueue| && turnQueue[position] == user
      modifies this`turnQueue, users`turnQueuePosition
      ensures Valid()
      ensures turnQueue == T.RemoveAt(old(turnQueue), position)
    {
      ValidIsIndexed();
      T.RemoveKeepsDistinct(turnQueue, position);
      T.RemovedMembers(turnQueue, position);
      turnQueue := turnQueue[..position] + turnQueue[position + 1..];
      MoveUp(position);
      user.turnQueuePosition := None;
      ValidIsIndexed();
    }

    method RemoveUser(user: User) returns (removed: bool)
      requires Valid() && user in users
      modifies this, users`turnQueuePosition
      ensures Valid() && users == old(users)
      ensures removed <==> user in old(turnQueue)
      ensures State() == T.RemoveUser(old(State()), user)
    {
      if user.turnQueuePosition.None? {
        return false;
      }
      var oldPosition := user.turnQueuePosition.value;
      Erase(user, oldPosition);
      if oldPosition == 0 {
        UpdateCurrentTurn(turnTime);
      } else {
        var left := GetTimeRemaining();
        Show(left);
      }
      return true;
    }

    method SetTurnTime(time: nat)
      requires Valid()
      modifies this`turnTime
      ensures Valid() && State() == T.Step(old(State()), T.SetTurnTime(time))
    {
      turnTime := time;
    }

    method PauseTurnTimer()
      requires Valid()
      modifies this`expiry, this`wait, this`shown, this`pausedMs
      ensures Valid() && State() == T.Step(old(State()), T.Pause)
    {
      var timeRemaining := GetTimeRemaining();
      var wasRunning := wait.Some?;
      wait := None;
      var saved: nat := if wasRunning && timeRemaining > 0 then timeRemaining else T.ToMs(turnTime);
      pausedMs := Some(saved);
      UpdateCurrentTurn(saved * T.NS_PER_MS);
    }

    method ResumeTurnTimer()
      requires Valid()
      modifies this`expiry, this`wait, this`shown, this`pausedMs
      ensures Valid() && State() == T.Step(old(State()), T.Resume)
    {
      if pausedMs.Some? {
        var timeRemaining := pausedMs.value;
        pausedMs := None;
        UpdateCurrentTurn(timeRemaining * T.NS_PER_MS);
      }
    }

    method EndCurrentTurn()
      requires Valid()
      modifies this, users`turnQueuePosition
      ensures Valid() && users == old(users)
      ensures State() == T.Step(old(State()), T.EndTurn)
    {
      if turnQueue == [] {
        return;
      }
      var _ := RemoveUser(turnQueue[0]);
    }

    method ForgetPositions()
      requires forall j :: 0 <= j < |turnQueue| ==> turnQueue[j] in users
      modifies users`turnQueuePosition
      ensures forall u | u in users ::
                u.turnQueuePosition == if u in turnQueue then None else old(u.turnQueuePosition)
    {
      var k := 0;
      while k < |turnQueue|
        invariant 0 <= k <= |turnQueue|
        invariant forall u | u in users ::
                    u.turnQueuePosition == if u in turnQueue[..k] then None else old(u.turnQueuePosition)
      {
        assert turnQueue[..k + 1] == turnQueue[..k] + [turnQueue[k]];
        turnQueue[k].turnQueuePosition := None;
        k := k + 1;
      }
      assert turnQueue[..|turnQueue|] == turnQueue;
    }

    method Clear()
      requires Valid()
      modifies this, users`turnQueuePosition
      ensures Valid() && users == old(users)
      ensures State() == T.Step(old(State()), T.Clear)
    {
      wait := None;
      if turnQueue != [] {
        assert forall j :: 0 <= j < |turnQueue| ==> turnQueue[j] in users;
        ForgetPositions();
        turnQueue := [];
        Show(0);
      }
    }

    /** The executor notices that the wait has expired and queues its handler. */
    method Expire()
      requires Valid() && wait.Some? && clock >= expiry
      modifies this`wait, this`late
      ensures Valid() && State() == T.Step(old(State()), T.Expire)
    {
      late := late + multiset{wait.value};
      wait := None;
    }

    /** The queued handler of an expired wait runs, however late. */
    method RunHandler(user: User)
      requires Valid() && user in users && user in late
      modifies this, users`turnQueuePosition
      ensures Valid() && users == old(users)
      ensures State() == T.Step(old(State()), T.RunHandler(user))
    {
      late := late - multiset{user};
      var _ := RemoveUser(user);
    }
  }
}
