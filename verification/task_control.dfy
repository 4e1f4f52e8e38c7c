/** The control flags that requests set and running tasks look at. */
module TaskControl {

  /** Pause and cancel requests, at most one of the two per task. */
  class TaskControlService {
    var pause: set<string>
    var cancel: set<string>

    constructor ()
      ensures pause == {} && cancel == {}
    {
      pause, cancel := {}, {};
    }

    method RequestPause(id: string)
      modifies this
      ensures pause == old(pause) + {id} && cancel == old(cancel) - {id}
    {
      pause := pause + {id};
      cancel := cancel - {id};
    }

    method RequestCancel(id: string)
      modifies this
      ensures cancel == old(cancel) + {id} && pause == old(pause) - {id}
    {
      cancel := cancel + {id};
      pause := pause - {id};
    }

    method Clear(id: string)
      modifies this
      ensures pause == old(pause) - {id} && cancel == old(cancel) - {id}
    {
      pause := pause - {id};
      cancel := cancel - {id};
    }
  }
}
