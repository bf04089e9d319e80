/**
 The background tasks of a device: one reads the settings after every authentication, one
 polls, one watches for overdue data. A task runs until it ends or is cancelled.
 */
module SessionTasks {
  import opened Prelude

  datatype Kind = Refresh | Poll | Watch

  class Device {
    var refreshTask: Option<nat>
    var pollTask: Option<nat>
    var dataTask: Option<nat>
    var hasConnection: bool

    // the event loop: tasks that were created and neither ended nor were cancelled
    var running: map<nat, Kind>
    var created: nat

    function Held(kind: Kind): Option<nat>
      reads this`refreshTask, this`pollTask, this`dataTask
    {
      match kind case Refresh => refreshTask case Poll => pollTask case Watch => dataTask
    }

    /** Every task that still runs is the one its field holds, so there is at most one of each kind. */
    ghost predicate Valid()
      reads this
    {
      forall t :: t in running ==> t < created && Held(running[t]) == Some(t)
    }

    /** A task of this kind runs, and its field holds it. */
    predicate Runs(kind: Kind)
      reads this`running, this`refreshTask, this`pollTask, this`dataTask
    {
      Held(kind).Some? && Held(kind).value in running
    }

    constructor ()
      ensures Valid() && running == map[] && !hasConnection
    {
      refreshTask, pollTask, dataTask := None, None, None;
      hasConnection := false;
      running, created := map[], 0;
    }

    /** The device makes its connection before it connects. */
    method Connect()
      requires Valid()
      modifies this`hasConnection
      ensures Valid() && hasConnection
    {
      hasConnection := true;
    }

    method Cancel(task: Option<nat>)
      modifies this`running
      ensures running == if task.Some? then old(running) - {task.value} else old(running)
    {
      if task.Some? {
        running := running - {task.value};
      }
    }

    /** `_cancel_session_tasks`: no task survives it. */
    method CancelSessionTasks()
      requires Valid()
      modifies this`running, this`refreshTask, this`pollTask, this`dataTask
      ensures Valid() && running == map[]
      ensures refreshTask == None && pollTask == None && dataTask == None
    {
      ghost var before := running;
      Cancel(refreshTask);
      Cancel(pollTask);
      Cancel(dataTask);
      assert forall t :: t in before ==> refreshTask == Some(t) || pollTask == Some(t) || dataTask == Some(t);
      assert running.Keys == {};
      refreshTask, pollTask, dataTask := None, None, None;
    }

    method CreateTask(kind: Kind) returns (task: nat)
      modifies this`running, this`created
      ensures task == old(created) && created == old(created) + 1
      ensures running == old(running)[task := kind]
    {
      task := created;
      created := created + 1;
      running := running[task := kind];
    }

    /**
     AUTHENTICATED: cancels the tasks of the previous session before it starts new ones.
     `polls` and `watches` tell whether the device class has these tasks.
     */
    method OnAuthenticated(polls: bool, watches: bool)
      requires Valid()
      modifies this`running, this`created, this`refreshTask, this`pollTask, this`dataTask
      ensures Valid()
      ensures Runs(Refresh) && (Runs(Poll) <==> polls) && (Runs(Watch) <==> watches)
      ensures forall t :: t in running ==> t >= old(created)
    {
      CancelSessionTasks();
      var refresh := CreateTask(Refresh);
      refreshTask := Some(refresh);
      assert Valid() && Runs(Refresh) && !Runs(Poll);
      if polls {
        var poll := CreateTask(Poll);
        pollTask := Some(poll);
      }
      assert Valid() && Runs(Refresh) && (Runs(Poll) <==> polls) && !Runs(Watch);
      if watches {
        var watch := CreateTask(Watch);
        dataTask := Some(watch);
      }
    }

    /** A task ended by itself. */
    method TaskEnds(task: nat)
      requires Valid()
      modifies this`running
      ensures Valid() && running == old(running) - {task}
    {
      running := running - {task};
    }

    /** `disconnect`: a device that has a connection keeps no task. */
    method Disconnect()
      requires Valid()
      modifies this
      ensures Valid() && !hasConnection
      ensures old(hasConnection) ==> running == map[]
      ensures !old(hasConnection) ==> running == old(running)
    {
      if !hasConnection {
        return;
      }
      CancelSessionTasks();
      hasConnection := false;
    }

    /** At most one task of a kind runs, over any sequence of events. */
    method Replay(events: seq<Event>)
      requires Valid()
      modifies this
      ensures Valid()
      ensures forall t, u :: t in running && u in running && running[t] == running[u] ==> t == u
    {
      for i := 0 to |events|
        invariant Valid()
      {
        match events[i]
        case Connects => Connect();
        case Authenticates(polls, watches) => OnAuthenticated(polls, watches);
        case Ends(task) => TaskEnds(task);
        case Disconnects => Disconnect();
      }
    }
  }

  datatype Event = Connects | Authenticates(polls: bool, watches: bool) | Ends(task: nat) | Disconnects
}
