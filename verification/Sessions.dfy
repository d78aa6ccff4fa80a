/** The objects behind `SessionSteps` and `ManagerSteps`: channels, the history buffer, a session and the
    manager. A method of a channel, a buffer or a session, and one of the manager that keeps its lock,
    is one mutex-protected region. `CloseIfNotLocked`, `CloseAllNormal` and the manager's
    `RemoveListener` take the lock several times; here they are calls that nothing interrupts, and
    `ManagerSteps` has their steps. Go panics on closing a closed channel and on sending to one; here
    both are preconditions, and the invariants discharge them. */
module Sessions {
  import opened Basics
  import opened SessionSteps

  class Channel {
    var queue: seq<Msg>
    var closed: bool

    constructor ()
      ensures queue == [] && !closed
    {
      queue, closed := [], false;
    }

    /** A non-blocking send. */
    method TrySend(m: Msg)
      requires !closed
      modifies this
      ensures !closed && queue == Offer(old(queue), m)
    {
      if |queue| < CHAN_CAP {
        queue := queue + [m];
      }
    }

    method Close()
      requires !closed
      modifies this`closed
      ensures closed
    {
      closed := true;
    }
  }

  /** A queue after a non-blocking send. */
  function Offer(queue: seq<Msg>, m: Msg): seq<Msg> {
    if |queue| < CHAN_CAP then queue + [m] else queue
  }

  /** The queue of an object is the queue of the state machine: a message to a queue shorter than 10240 goes
      to its end, and none of the earlier ones is touched. */
  lemma {:induction false} OfferIsSend(ch: Chan, m: Msg)
    ensures Offer(ch.queue, m) == SendOpen(ch, m).queue
    ensures |ch.queue| < 10240 ==>
              Offer(ch.queue, m)[..|ch.queue|] == ch.queue && Offer(ch.queue, m)[|ch.queue|..] == [m]
    ensures |ch.queue| >= 10240 ==> Offer(ch.queue, m) == ch.queue
  {
  }

  class CircularBuffer {
    var data: seq<Byte>
    const max: nat
    ghost var written: seq<Byte>

    ghost predicate Valid()
      reads this
    {
      data == LastN(written, max)
    }

    constructor (max: nat)
      ensures Valid() && written == [] && this.max == max
    {
      data, this.max, written := [], max, [];
    }

    method Write(p: seq<Byte>) returns (n: nat)
      requires Valid()
      modifies this
      ensures Valid() && written == old(written) + p && n == |p|
    {
      LastNOfAppend(written, p, max);
      written := written + p;
      data := data + p;
      if |data| > max {
        data := data[|data| - max..];
      }
      n := |p|;
    }

    method Bytes() returns (res: seq<Byte>)
      requires Valid()
      ensures res == LastN(written, max)
      ensures if |written| <= max then res == written else res == written[|written| - max..]
    {
      res := data;
    }
  }

  class Session {
    const id: string
    const buffer: CircularBuffer
    var listeners: seq<Channel>
    var isPinned: bool
    var isLocked: bool
    var isHidden: bool
    var closeCalls: nat

    /** Listeners are distinct and open; hidden implies locked implies pinned. */
    ghost predicate Valid()
      reads this`listeners, this`isPinned, this`isLocked, this`isHidden, listeners`closed
    {
      && (forall i, j :: 0 <= i < j < |listeners| ==> listeners[i] != listeners[j])
      && (forall c <- listeners :: !c.closed)
      && (isHidden ==> isLocked) && (isLocked ==> isPinned)
    }

    constructor (id: string)
      ensures Valid() && this.id == id && listeners == [] && closeCalls == 0
      ensures !isPinned && !isLocked && !isHidden
      ensures fresh(buffer) && buffer.Valid() && buffer.written == [] && buffer.max == 50000
    {
      this.id := id;
      buffer := new CircularBuffer(50000);
      listeners, closeCalls := [], 0;
      isPinned, isLocked, isHidden := false, false, false;
    }

    /** 0 normal, 1 pinned, 2 pinned and locked, 3 pinned, locked and hidden; anything else is ignored. */
    method SetState(state: int)
      requires Valid()
      modifies this`isPinned, this`isLocked, this`isHidden
      ensures Valid()
      ensures 0 <= state <= 3 ==> isPinned == (state >= 1) && isLocked == (state >= 2) && isHidden == (state >= 3)
      ensures !(0 <= state <= 3) ==> isPinned == old(isPinned) && isLocked == old(isLocked) && isHidden == old(isHidden)
    {
      match state {
        case 0 => isPinned, isLocked, isHidden := false, false, false;
        case 1 => isPinned, isLocked, isHidden := true, false, false;
        case 2 => isPinned, isLocked, isHidden := true, true, false;
        case 3 => isPinned, isLocked, isHidden := true, true, true;
        case _ =>
      }
    }

    /** Fan-out of the read loop, `Broadcast` and `BroadcastTabState`. */
    method Broadcast(m: Msg)
      requires Valid()
      modifies listeners
      ensures Valid()
      ensures forall c <- listeners :: c.queue == Offer(old(c.queue), m)
    {
      var i := 0;
      while i < |listeners|
        invariant 0 <= i <= |listeners|
        invariant Valid()
        invariant forall k :: 0 <= k < i ==> listeners[k].queue == Offer(old(listeners[k].queue), m)
        invariant forall k :: i <= k < |listeners| ==> listeners[k].queue == old(listeners[k].queue)
      {
        listeners[i].TrySend(m);
        i := i + 1;
      }
    }

    /** Register a listener and hand it the history, in one region. */
    method AddListener() returns (ch: Channel, history: seq<Byte>)
      requires Valid() && buffer.Valid()
      modifies this`listeners
      ensures Valid() && fresh(ch) && ch.queue == []
      ensures listeners == old(listeners) + [ch]
      ensures history == LastN(buffer.written, buffer.max)
    {
      ch := new Channel();
      listeners := listeners + [ch];
      history := buffer.Bytes();
    }

    /** Closes the channel only if it is still registered: whoever else removed it also closed it. */
    method RemoveListener(ch: Channel)
      requires Valid()
      modifies this`listeners, ch`closed
      ensures Valid() && ch !in listeners
      ensures forall c :: c in listeners <==> c in old(listeners) && c != ch
      ensures ch.closed == (old(ch.closed) || ch in old(listeners))
    {
      var i := 0;
      while i < |listeners|
        invariant 0 <= i <= |listeners| && listeners == old(listeners) && ch.closed == old(ch.closed) && Valid()
        invariant ch !in listeners[..i]
      {
        if listeners[i] == ch {
          ghost var before := listeners;
          listeners := listeners[..i] + listeners[i + 1..];
          assert forall c :: c in listeners <==> c in before && c != ch;
          ch.Close();
          return;
        }
        i := i + 1;
      }
    }

    /** What the end of the read loop and `DisconnectAllWebsockets` do to a session. */
    method CloseListeners()
      requires Valid()
      modifies this`listeners, listeners`closed
      ensures Valid() && listeners == []
      ensures forall c <- old(listeners) :: c.closed
    {
      var i := 0;
      while i < |listeners|
        invariant 0 <= i <= |listeners| && listeners == old(listeners)
        invariant forall k :: 0 <= k < i ==> listeners[k].closed
        invariant forall k :: i <= k < |listeners| ==> !listeners[k].closed
      {
        listeners[i].Close();
        i := i + 1;
      }
      listeners := [];
    }

    /** Tell every listener that the session was taken over, and close it. */
    method Steal(m: Msg)
      requires Valid()
      modifies this`listeners, listeners
      ensures Valid() && listeners == []
      ensures forall c <- old(listeners) :: c.closed && c.queue == Offer(old(c.queue), m)
    {
      var i := 0;
      while i < |listeners|
        invariant 0 <= i <= |listeners| && listeners == old(listeners)
        invariant forall k :: 0 <= k < i ==> listeners[k].closed && listeners[k].queue == Offer(old(listeners[k].queue), m)
        invariant forall k :: i <= k < |listeners| ==> !listeners[k].closed && listeners[k].queue == old(listeners[k].queue)
      {
        listeners[i].TrySend(m);
        listeners[i].Close();
        i := i + 1;
      }
      listeners := [];
    }

    /** Ends the process or connection behind the session. */
    method CloseProcess()
      modifies this`closeCalls
      ensures closeCalls == old(closeCalls) + 1
    {
      closeCalls := closeCalls + 1;
    }
  }

  ghost predicate Apart(all: map<string, Session>) {
    forall a, b :: a in all && b in all && a != b ==> all[a] != all[b]
  }

  /** The entries that are left when those of the closed sessions are gone. */
  ghost predicate Left(now: set<string>, was: set<string>, gone: set<string>) {
    now == was - gone
  }

  lemma {:induction false} LeftStep(now: set<string>, was: set<string>, gone: set<string>, id: string)
    requires Left(now, was, gone)
    ensures Left(now - {id}, was, gone + {id})
  {
  }

  lemma {:induction false} LeftAtEnd(now: set<string>, was: set<string>, gone: set<string>, all: set<string>,
                                     kept: set<string>)
    requires Left(now, was, gone) && was <= all && kept == all - gone
    ensures now == was * kept
  {
  }

  /** Of all sessions exactly those that are gone were closed, once. */
  ghost predicate Counted(all: map<string, Session>, calls: map<string, nat>, gone: set<string>)
    reads all.Values`closeCalls
  {
    forall id <- all :: id in calls && all[id].closeCalls == calls[id] + if id in gone then 1 else 0
  }

  /** The listeners that the sessions had before. */
  ghost predicate Silenced(sessions: map<string, Session>, was: map<string, seq<Channel>>, todo: set<string>)
    reads sessions.Values`listeners, set id, c | id in was && c in was[id] :: c`closed
  {
    forall id <- sessions :: id in was &&
      if id in todo then sessions[id].listeners == was[id]
      else sessions[id].listeners == [] && forall c <- was[id] :: c.closed
  }

  class SessionManager {
    var sessions: map<string, Session>
    /** The ids that the map of timers has an entry for. */
    var disconnectTimers: set<string>

    /** The listeners of all sessions. */
    ghost function AllChannels(): (cs: set<Channel>)
      reads this`sessions, sessions.Values`listeners
      ensures forall id <- sessions :: forall c <- sessions[id].listeners :: c in cs
    {
      set s, c | s in sessions.Values && c in s.listeners :: c
    }

    /** Every session is valid and stored under its own id, no channel belongs to two sessions, and
        every entry for a disconnect timer is for a registered session. A timer may go on without an
        entry; `ManagerSteps` says when. */
    ghost predicate Valid()
      reads this, sessions.Values`listeners, sessions.Values`isPinned, sessions.Values`isLocked,
          sessions.Values`isHidden
      reads AllChannels()`closed
    {
      && (forall id <- sessions :: sessions[id].id == id && sessions[id].Valid())
      && (forall a, b :: a in sessions && b in sessions && a != b ==>
            forall c :: !(c in sessions[a].listeners && c in sessions[b].listeners))
      && disconnectTimers <= sessions.Keys
    }

    constructor ()
      ensures Valid() && sessions == map[] && disconnectTimers == {}
    {
      sessions, disconnectTimers := map[], {};
    }

    method Get(id: string) returns (s: Session?)
      ensures if id in sessions then s == sessions[id] else s == null
    {
      s := if id in sessions then sessions[id] else null;
    }

    /** By id: a newer session registered under the same id goes as well. */
    method Remove(id: string)
      requires Valid()
      modifies this
      ensures Valid() && sessions == old(sessions) - {id} && disconnectTimers == old(disconnectTimers) - {id}
    {
      sessions := sessions - {id};
      disconnectTimers := disconnectTimers - {id};
    }

    method Add(s: Session)
      requires Valid() && s.Valid()
      requires forall id <- sessions :: id != s.id ==> forall c :: !(c in sessions[id].listeners && c in s.listeners)
      modifies this
      ensures Valid() && sessions == old(sessions)[s.id := s] && disconnectTimers == old(disconnectTimers)
    {
      sessions := sessions[s.id := s];
    }

    /** Arms the timer of an unpinned session nobody listens to. */
    method ClearInactive(id: string)
      requires Valid()
      modifies this`disconnectTimers
      ensures Valid()
      ensures disconnectTimers ==
              if id in sessions && !sessions[id].isPinned && !sessions[id].isLocked && sessions[id].listeners == []
              then old(disconnectTimers) + {id} else old(disconnectTimers)
    {
      if id in sessions {
        var s := sessions[id];
        if !(s.isPinned || s.isLocked) && |s.listeners| == 0 {
          disconnectTimers := disconnectTimers + {id};
        }
      }
    }

    /** The timer's function. It may run late, after the timer was cancelled or armed again. It ends the
        session exactly when nobody listens at that moment; pinning it meanwhile does not help. */
    method TimerFires(id: string)
      requires Valid()
      modifies this, sessions.Values`closeCalls
      ensures Valid()
      ensures var ends := id in old(sessions) && old(sessions[id].listeners == []);
              && sessions == (if ends then old(sessions) - {id} else old(sessions))
              && forall x <- old(sessions) ::
                   old(sessions)[x].closeCalls == old(sessions[x].closeCalls) + (if ends && x == id then 1 else 0)
      ensures disconnectTimers == old(disconnectTimers) - {id}
    {
      if id in sessions {
        EndUnused(id, sessions[id]);
      }
      disconnectTimers := disconnectTimers - {id};
    }

    method EndUnused(id: string, s: Session)
      requires Valid() && id in sessions && sessions[id] == s
      modifies this`sessions, s`closeCalls
      ensures sessions == if s.listeners == [] then old(sessions) - {id} else old(sessions)
      ensures s.closeCalls == old(s.closeCalls) + if s.listeners == [] then 1 else 0
    {
      if |s.listeners| == 0 {
        s.CloseProcess();
        sessions := sessions - {id};
      }
    }

    method CancelDisconnectTimer(id: string)
      requires Valid()
      modifies this`disconnectTimers
      ensures Valid() && disconnectTimers == old(disconnectTimers) - {id}
    {
      disconnectTimers := disconnectTimers - {id};
    }

    /** Ends a session that is not locked. */
    method CloseIfNotLocked(id: string)
      requires Valid()
      modifies this, sessions.Values`closeCalls
      ensures Valid()
      ensures var ends := id in old(sessions) && !old(sessions[id].isLocked);
              && sessions == (if ends then old(sessions) - {id} else old(sessions))
              && disconnectTimers == (if ends then old(disconnectTimers) - {id} else old(disconnectTimers))
              && forall x <- old(sessions) ::
                   old(sessions)[x].closeCalls == old(sessions[x].closeCalls) + (if ends && x == id then 1 else 0)
    {
      if id in sessions {
        var s := sessions[id];
        if !s.isLocked {
          CloseOne(id, s);
        }
      }
    }

    /** The sessions that are not locked. */
    method CollectUnlocked() returns (toClose: set<string>)
      ensures forall id :: id in toClose <==> id in sessions && !sessions[id].isLocked
    {
      toClose := {};
      var todo := sessions.Keys;
      while todo != {}
        invariant todo <= sessions.Keys
        invariant forall id :: id in toClose <==> id in sessions && id !in todo && !sessions[id].isLocked
        decreases todo
      {
        var id :| id in todo;
        todo := todo - {id};
        if !sessions[id].isLocked {
          toClose := toClose + {id};
        }
      }
    }

    method CloseOne(id: string, s: Session)
      requires Valid() && id in sessions && sessions[id] == s
      modifies this, s`closeCalls
      ensures Valid() && sessions == old(sessions) - {id} && s.closeCalls == old(s.closeCalls) + 1
      ensures disconnectTimers == old(disconnectTimers) - {id}
    {
      s.CloseProcess();
      Remove(id);
    }

    method CloseNext(id: string, s: Session, ghost all: map<string, Session>, ghost calls: map<string, nat>,
                     ghost gone: set<string>)
      requires Valid() && id in sessions && sessions[id] == s && sessions == all - gone
      requires Apart(all) && Counted(all, calls, gone)
      modifies this, s`closeCalls
      ensures Valid() && sessions == all - (gone + {id}) && Counted(all, calls, gone + {id})
      ensures disconnectTimers == old(disconnectTimers) - {id}
    {
      CloseOne(id, s);
      assert (all - gone) - {id} == all - (gone + {id});
    }

    /** Ends all sessions that are not locked, each once. */
    method CloseAllNormal()
      requires Valid()
      modifies this, sessions.Values`closeCalls
      ensures Valid()
      ensures forall id :: id in sessions <==> id in old(sessions) && old(sessions)[id].isLocked
      ensures forall id <- sessions :: sessions[id] == old(sessions)[id]
      ensures disconnectTimers == old(disconnectTimers) * sessions.Keys
      ensures forall id <- old(sessions) ::
        old(sessions)[id].closeCalls == old(sessions[id].closeCalls) + if old(sessions)[id].isLocked then 0 else 1
    {
      var toClose := CollectUnlocked();
      ghost var all := sessions;
      ghost var calls: map<string, nat> := map id | id in sessions :: sessions[id].closeCalls;
      ghost var gone: set<string> := {};
      ghost var timers := disconnectTimers;
      assert Apart(all) by {
        assert forall id <- all :: all[id].id == id;
      }
      var todo := toClose;
      while todo != {}
        invariant Valid() && Splits(toClose, gone, todo)
        invariant sessions == all - gone && Counted(all, calls, gone) && Left(disconnectTimers, timers, gone)
        decreases todo
      {
        var id :| id in todo;
        MoveOver(toClose, gone, todo, id);
        LeftStep(disconnectTimers, timers, gone, id);
        CloseNext(id, sessions[id], all, calls, gone);
        todo, gone := todo - {id}, gone + {id};
      }
      AllMoved(toClose, gone);
      LeftAtEnd(disconnectTimers, timers, gone, all.Keys, sessions.Keys);
    }

    method RemoveListener(id: string, ch: Channel)
      requires Valid()
      requires forall a <- sessions :: a != id ==> ch !in sessions[a].listeners
      modifies this`disconnectTimers, sessions.Values`listeners, ch`closed
      ensures Valid() && sessions == old(sessions)
      ensures forall a <- sessions :: forall c ::
        c in sessions[a].listeners <==> c in old(sessions[a].listeners) && !(a == id && c == ch)
      ensures ch.closed == (old(ch.closed) || (id in sessions && ch in old(sessions[id].listeners)))
      ensures disconnectTimers ==
              if id in sessions && !sessions[id].isPinned && !sessions[id].isLocked && sessions[id].listeners == []
              then old(disconnectTimers) + {id} else old(disconnectTimers)
    {
      if id in sessions {
        sessions[id].RemoveListener(ch);
        ClearInactive(id);
      }
    }

    method DisconnectOne(id: string, s: Session, ghost was: map<string, seq<Channel>>, ghost todo: set<string>)
      requires Valid() && id in sessions && sessions[id] == s && id in todo
      requires Silenced(sessions, was, todo)
      modifies s`listeners, s.listeners`closed
      ensures Valid() && Silenced(sessions, was, todo - {id})
    {
      assert forall a <- sessions :: a != id ==> sessions[a] != s;
      s.CloseListeners();
    }

    /** Closes every listener of every session. */
    method DisconnectAllWebsockets()
      requires Valid()
      modifies sessions.Values`listeners, AllChannels()`closed
      ensures Valid()
      ensures forall id <- sessions :: sessions[id].listeners == []
      ensures forall id <- sessions :: forall c <- old(sessions[id].listeners) :: c.closed
    {
      ghost var was: map<string, seq<Channel>> := map id | id in sessions :: sessions[id].listeners;
      var todo := sessions.Keys;
      while todo != {}
        invariant Valid() && todo <= sessions.Keys && Silenced(sessions, was, todo)
        decreases todo
      {
        var id :| id in todo;
        DisconnectOne(id, sessions[id], was, todo);
        todo := todo - {id};
      }
    }
  }
}
