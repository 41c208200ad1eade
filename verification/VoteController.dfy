/** The vote controller and the hooks of the VM that feed it, as the source writes them
    (VoteController.hpp; Vote, OnVoteEnd and OnRemoveUser in AdminVirtualMachine.hpp). */
module VoteControllers {
  import V = Votes

  class VoteController<U(==)> {
    const voteLimit: nat
    var clock: int
    var votesEnabled: bool
    var voteTime: nat
    var cooldownTime: nat
    var voteState: V.Phase
    var yesVoteCount: nat
    var noVoteCount: nat
    var timer: V.Wait
    var users: map<U, V.VoteData>
    ghost var log: seq<V.Note>

    ghost function State(): V.State<U>
      reads this
    {
      V.State(clock, votesEnabled, voteTime, cooldownTime, voteState, yesVoteCount, noVoteCount,
              timer, users, log)
    }

    constructor (now: int, limit: nat)
      ensures State() == V.Init(now) && voteLimit == limit
    {
      voteLimit := limit;
      clock, votesEnabled, voteTime, cooldownTime := now, false, 0, 0;
      voteState, yesVoteCount, noVoteCount, timer, users, log := V.Idle, 0, 0, V.NoWait, map[], [];
    }

    method Tick(elapsed: nat)
      modifies this`clock
      ensures State() == V.Step(old(State()), V.Tick(elapsed), voteLimit)
    {
      clock := clock + elapsed;
    }

    method AddUser(user: U)
      modifies this`users
      ensures State() == V.Step(old(State()), V.Join(user), voteLimit)
    {
      if user !in users {
        users := users[user := V.FRESH];
      }
    }

    method StartRound(user: U)
      requires user in users
      modifies this
      ensures State() == old(State()).(phase := V.Voting, yes := 1, no := 0,
                wait := V.Armed(clock + voteTime),
                users := old(users)[user := old(users)[user].(last := V.Yes)],
                log := old(log) + [V.Started(clock, voteTime)])
    {
      voteState := V.Voting;
      users := users[user := users[user].(last := V.Yes)];
      yesVoteCount := 1;
      noVoteCount := 0;
      timer := V.Armed(clock + voteTime);
      log := log + [V.Started(clock, voteTime)];
    }

    method CountVote(user: U, votedYes: bool) returns (counted: bool)
      requires user in users && votesEnabled && voteState == V.Voting
      modifies this`users, this`yesVoteCount, this`noVoteCount
      ensures State() == V.Recount(old(State()), user, votedYes, voteLimit)
      ensures counted == V.Counted(old(State()), user, votedYes, voteLimit)
    {
      var data := users[user];
      if !data.limited {
        data := data.(amount := data.amount + 1);
      }
      if data.limited || data.amount >= voteLimit {
        users := users[user := data.(limited := true)];
        return false;
      }
      var previous := data.last;
      var decision := if votedYes then V.Yes else V.No;
      if previous == decision {
        users := users[user := data];
        return false;
      }
      if votedYes {
        yesVoteCount := V.Inc(yesVoteCount);
      } else {
        noVoteCount := V.Inc(noVoteCount);
      }
      if previous != V.Undecided {
        if votedYes {
          noVoteCount := V.Dec(noVoteCount);
        } else {
          yesVoteCount := V.Dec(yesVoteCount);
        }
      }
      users := users[user := data.(last := decision)];
      return true;
    }

    /** A vote of someone who is not in the channel is ignored. */
    method Vote(user: U, votedYes: bool) returns (counted: bool)
      modifies this
      ensures State() == V.Step(old(State()), V.Vote(user, votedYes), voteLimit)
      ensures counted <==> user in old(users) && V.Counted(old(State()), user, votedYes, voteLimit)
    {
      if user !in users || !votesEnabled {
        return false;
      }
      match voteState {
        case Idle =>
          if !votedYes {
            return false;
          }
          StartRound(user);
          return true;
        case Voting =>
          counted := CountVote(user, votedYes);
        case CoolingDown =>
          return false;
      }
    }

    method RemoveVote(user: U) returns (changed: bool)
      requires user in users
      modifies this`users, this`yesVoteCount, this`noVoteCount
      ensures changed <==> old(users)[user].last != V.Undecided
      ensures users == old(users)[user := old(users)[user].(last := V.Undecided)]
      ensures State().(users := old(users)) == V.RemoveVote(old(State()), user)
    {
      var last := users[user].last;
      if last == V.Undecided {
        assert users == users[user := users[user].(last := V.Undecided)];
        return false;
      }
      if last == V.Yes {
        yesVoteCount := V.Dec(yesVoteCount);
      } else {
        noVoteCount := V.Dec(noVoteCount);
      }
      users := users[user := users[user].(last := V.Undecided)];
      return true;
    }

    method RemoveUser(user: U)
      modifies this`users, this`yesVoteCount, this`noVoteCount
      ensures State() == V.Step(old(State()), V.Leave(user), voteLimit)
    {
      if user in users {
        ghost var before := users;
        var _ := RemoveVote(user);
        users := users - {user};
        assert users == before - {user};
      }
    }

    method SetVotesEnabled(on: bool)
      modifies this`votesEnabled, this`timer
      ensures State() == V.Step(old(State()), V.SetVotes(on), voteLimit)
    {
      if votesEnabled && !on && timer.Armed? {
        timer := V.Ready(true);
      }
      votesEnabled := on;
    }

    method SetTimes(newVoteTime: nat, newCooldown: nat)
      modifies this`voteTime, this`cooldownTime
      ensures State() == V.Step(old(State()), V.SetTimes(newVoteTime, newCooldown), voteLimit)
    {
      voteTime, cooldownTime := newVoteTime, newCooldown;
    }

    method Expire()
      requires timer.Armed? && clock >= timer.expiry
      modifies this`timer
      ensures State() == V.Step(old(State()), V.Expire, voteLimit)
    {
      timer := V.Ready(false);
    }

    method RunHandler()
      requires timer.Ready?
      modifies this
      ensures State() == V.Step(old(State()), V.RunHandler, voteLimit)
    {
      if voteState != V.Voting {
        voteState, timer := V.Idle, V.NoWait;
        return;
      }
      if timer.failed || !votesEnabled {
        voteState, timer := V.Idle, V.NoWait;
        log := log + [V.Dropped(clock)];
        return;
      }
      if cooldownTime > 0 {
        voteState := V.CoolingDown;
        timer := V.Armed(clock + cooldownTime);
      } else {
        voteState, timer := V.Idle, V.NoWait;
      }
      log := log + [V.Ended(clock, yesVoteCount >= noVoteCount, cooldownTime)];
      ResetVoteData();
    }

    /** The result goes out to every user and clears their vote data. */
    method ResetVoteData()
      modifies this`users
      ensures users == V.ClearVotes(old(users))
    {
      ghost var before := users;
      var todo := users.Keys;
      while todo != {}
        invariant todo <= users.Keys == before.Keys
        invariant forall u | u in users ::
                    users[u] == if u in todo then before[u] else V.FRESH
        decreases |todo|
      {
        var u :| u in todo;
        users := users[u := V.FRESH];
        todo := todo - {u};
      }
    }
  }
}
