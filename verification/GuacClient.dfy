/** The client and the virtual machine as objects, one method for each strand handler and
    each atomic step of the guac thread (GuacamoleClient.hpp, AdminVirtualMachine.hpp). */
module GuacClients {
  import L = GuacLifecycle

  class GuacamoleClient {
    var state: L.ClientState
    var writeHandler: L.Handler
    var thread: L.Thread
    var held: bool
    ghost var commits: nat
    ghost var lateCommit: bool
    ghost var windowStop: bool
    ghost var latePost: bool
    ghost var stopCalled: bool
    ghost var disconnected: bool
    ghost var guacStops: nat
    ghost var posted: seq<L.Task>

    ghost function Client(): L.Client
      reads this
    {
      L.Client(state, writeHandler, thread, held, commits, lateCommit, windowStop, latePost, stopCalled,
               disconnected, guacStops, posted)
    }

    constructor ()
      ensures Client() == L.INIT.client
    {
      state, writeHandler, thread, held := L.Stopped, L.FirstWrite, L.Gone, false;
      commits, lateCommit, windowStop, latePost := 0, false, false, false;
      stopCalled, disconnected, guacStops, posted := false, false, 0, [];
    }

    method CreateClient()
      modifies this
      ensures Client() == L.FRESH
    {
      state := L.Starting;
      writeHandler, thread, held := L.FirstWrite, L.Looping, true;
      commits, lateCommit, windowStop, latePost := 0, false, false, false;
      stopCalled, disconnected, guacStops, posted := false, false, 0, [];
    }

    method Free()
      modifies this`held
      ensures Client() == old(Client()).(held := false)
    {
      held := false;
    }

    method Exchange(newState: L.ClientState) returns (previous: L.ClientState)
      modifies this`state
      ensures state == newState && previous == old(state)
    {
      previous := state;
      state := newState;
    }

    method CompareExchange(expected: L.ClientState, newState: L.ClientState)
      returns (succeeded: bool, actual: L.ClientState)
      modifies this`state
      ensures actual == old(state) && (succeeded <==> actual == expected)
      ensures state == if succeeded then newState else old(state)
    {
      actual := state;
      succeeded := actual == expected;
      if succeeded {
        state := newState;
      }
    }

    method Stop()
      modifies this
      ensures Client() == L.StopClient(old(Client()))
    {
      stopCalled := true;
      windowStop := windowStop || thread == L.MustPostStart;
      var previous := Exchange(L.Stopping);
      if previous == L.Running {
        guacStops := guacStops + 1;
      }
    }

    method SocketWriteHandler(instr: L.Instr)
      modifies this`state, this`disconnected
      ensures Client() == L.Observe(old(Client()), instr)
    {
      if instr == L.Disconnect {
        state := L.Stopping;
        disconnected := true;
      }
    }

    /** The write handler runs up to and including its access to the shared state. */
    method Write(instr: L.Instr)
      requires thread == L.Looping
      modifies this
      ensures Client() == L.WriteInstr(old(Client()), instr)
    {
      match writeHandler {
        case FirstWrite =>
          if instr != L.Nop {
            writeHandler := L.AwaitImage;
          }
          SocketWriteHandler(instr);
        case AwaitImage =>
          if instr == L.Image0 {
            var wasStarting, actual := CompareExchange(L.Starting, L.Running);
            if wasStarting {
              commits := commits + 1;
              lateCommit := lateCommit || stopCalled || disconnected;
              thread := L.MustPostStart;
            } else if actual == L.Stopping {
              thread := L.MustStop;
            }
            writeHandler := L.Plain;
          }
          SocketWriteHandler(instr);
        case Plain =>
          SocketWriteHandler(instr);
      }
    }

    method ThreadExits()
      requires thread == L.Looping
      modifies this
      ensures Client() == L.Exit(old(Client()))
    {
      if writeHandler == L.FirstWrite {
        thread := L.Gone;
      } else {
        state := L.Stopped;
        thread := L.MustPostStop;
      }
    }
  }

  class AdminVirtualMachine {
    const client: GuacamoleClient
    var strand: seq<L.Task>
    var active: bool
    var connected: bool
    var delayPending: bool
    var lateDelays: nat
    ghost var ran: seq<L.Task>

    ghost function State(): L.State
      reads this, client
    {
      L.State(client.Client(), strand, ran, active, connected, delayPending, lateDelays)
    }

    constructor ()
      ensures State() == L.INIT && fresh(client)
    {
      client := new GuacamoleClient();
      strand, active, connected, delayPending, lateDelays, ran := [], false, false, false, 0, [];
    }

    method StartGuacamoleClient()
      modifies this`ran, client
      ensures State() == L.CreateClient(old(State()))
    {
      client.CreateClient();
      ran := [];
    }

    method Start()
      modifies this, client
      ensures State() == L.Step(old(State()), L.Start)
    {
      if active {
        return;
      }
      active := true;
      StartGuacamoleClient();
    }

    method Stop()
      modifies this, client
      ensures State() == L.Step(old(State()), L.Stop)
    {
      if !active {
        return;
      }
      active := false;
      delayPending := false;
      client.Stop();
    }

    method Restart()
      modifies this, client
      ensures State() == L.Step(old(State()), L.Restart)
    {
      if !active {
        return;
      }
      active := true;
      client.Stop();
    }

    method OnStart()
      modifies this`connected, client
      ensures State() == L.RunOnStart(old(State()))
    {
      if !active {
        client.Stop();
        return;
      }
      connected := true;
    }

    method OnStop()
      modifies this`connected, this`delayPending
      ensures State() == L.RunOnStop(old(State()))
    {
      connected := false;
      if active {
        delayPending := true;
      }
    }

    method RunTask()
      requires strand != []
      modifies this, client
      ensures State() == L.Step(old(State()), L.RunTask)
    {
      var task := strand[0];
      strand := strand[1..];
      ran := ran + [task];
      match task {
        case OnStart => OnStart();
        case OnStop =>
          client.Free();
          OnStop();
      }
    }

    method DelayExpires()
      requires delayPending
      modifies this
      ensures State() == L.Step(old(State()), L.DelayExpires)
    {
      delayPending := false;
      lateDelays := lateDelays + 1;
    }

    method RunDelay()
      requires lateDelays > 0
      modifies this, client
      ensures State() == L.Step(old(State()), L.RunDelay)
    {
      lateDelays := lateDelays - 1;
      if active {
        StartGuacamoleClient();
      }
    }

    method ThreadStep()
      requires client.thread in {L.MustPostStart, L.MustStop, L.MustPostStop}
      modifies this`strand, client
      ensures State() == L.Step(old(State()), L.ThreadStep)
    {
      match client.thread {
        case MustPostStart =>
          strand := strand + [L.OnStart];
          client.posted := client.posted + [L.OnStart];
          client.latePost := client.latePost || client.stopCalled;
          client.thread := L.Looping;
        case MustStop =>
          client.guacStops := client.guacStops + 1;
          client.thread := L.Looping;
        case MustPostStop =>
          strand := strand + [L.OnStop];
          client.posted := client.posted + [L.OnStop];
          client.thread := L.Gone;
      }
    }
  }
}
