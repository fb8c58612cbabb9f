/** An extension driver and its sessions as objects (internal/extreg/dbdriver.go,
    dbdriver_session.go); DriverSessions interleaves the steps of these methods. */
module DriverObject {

  class ExtensionSession {
    var once: bool
    var closes: nat      // calls of inner.Close()

    ghost predicate Valid()
      reads this
    {
      closes == if once then 1 else 0
    }

    constructor ()
      ensures Valid() && !once
    {
      once, closes := false, 0;
    }

    method CloseInner()
      requires Valid()
      modifies this
      ensures Valid() && once
    {
      if !once {
        once := true;
        closes := closes + 1;
      }
    }
  }

  class ExtensionDriver {
    var ended: bool
    var sessions: set<ExtensionSession>

    constructor ()
      ensures !ended && sessions == {}
    {
      ended, sessions := false, {};
    }

    /** The end of Open: hands the session out unless the driver was removed meanwhile. */
    method Register(s: ExtensionSession) returns (given: bool)
      requires s.Valid() && !s.once
      modifies this`sessions, s
      ensures given == !ended && s.Valid() && s.once == ended
      ensures sessions == if given then old(sessions) + {s} else old(sessions)
    {
      if ended {
        s.CloseInner();
        return false;
      }
      sessions := sessions + {s};
      return true;
    }

    /** Session.Close: out of the set, closed. */
    method Close(s: ExtensionSession)
      requires s.Valid()
      modifies this`sessions, s
      ensures sessions == old(sessions) - {s} && s.Valid() && s.once
    {
      sessions := sessions - {s};
      s.CloseInner();
    }

    /** remove: ends the life, empties the set and closes every session it held, whether or not
        its holder has closed it already. */
    method Remove()
      requires forall s :: s in sessions ==> s.Valid()
      modifies this, sessions
      ensures ended && sessions == {}
      ensures forall s :: s in old(sessions) ==> s.Valid() && s.closes == 1
    {
      ended := true;
      var todo := sessions;
      sessions := {};
      while todo != {}
        invariant todo <= old(sessions) && ended && sessions == {}
        invariant forall s :: s in old(sessions) ==> s.Valid() && (s in todo || s.once)
      {
        var s :| s in todo;
        s.CloseInner();
        todo := todo - {s};
      }
    }
  }
}
