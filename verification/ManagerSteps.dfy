/** The session manager when requests, process ends and timers interleave. Closing a session and taking
    it off the manager are two steps, and the second one goes by id. A timer has an entry in a map by
    id, and its function, once started, waits for the manager's lock and can no longer be stopped. */
module ManagerSteps {

  /** A session; `n` tells apart those that carry the same id. */
  datatype Sess = Sess(id: string, n: nat)

  /** `added` are all sessions so far, `chosen` those that some request is going to close, `closed` those
      whose process was told to stop, `ended` those whose reader has stopped. `timers` is the manager's
      map of timers; `armed` are the timers that have not elapsed, `waiting` those whose function has
      started and waits, each with its session's id; `next` numbers the timers. */
  datatype Manager = Manager(reg: map<string, Sess>, added: set<Sess>, locked: set<Sess>, chosen: set<Sess>,
                             closed: set<Sess>, ended: set<Sess>,
                             timers: map<string, nat>, armed: map<nat, string>, waiting: map<nat, string>, next: nat)

  const START := Manager(map[], {}, {}, {}, {}, {}, map[], map[], map[], 0)

  datatype Act =
    | Add(s: Sess)                        // a new session is registered under its id
    | SetLocked(s: Sess, locked: bool)    // the user locks or unlocks a tab
    | Choose(s: Sess)                     // `CloseIfNotLocked` finds it unlocked
    | ChooseAll                           // `CloseAllNormal` collects all that are unlocked
    | Reconnect(s: Sess)                  // a client reconnects: the lock is not looked at
    | Close(s: Sess)                      // a chosen session's process is told to stop
    | End(s: Sess)                        // the reader of a session stops
    | Drop(s: Sess)                       // `Remove` by whoever closed it, and by its own goroutine
    | Arm(id: string)                     // `ClearInactive` finds nobody listening
    | Cancel(id: string)                  // `CancelDisconnectTimer`: somebody listens again
    | Elapse(t: nat)                      // the minute is over: the function starts, and waits
    | Fire(t: nat, idle: bool)            // the function runs; `idle`: it finds nobody listening

  predicate Registered(m: Manager, s: Sess) {
    s.id in m.reg && m.reg[s.id] == s
  }

  /** Its process runs and has not been told to stop. */
  predicate Open(m: Manager, s: Sess) {
    s in m.added && s !in m.closed && s !in m.ended
  }

  predicate Enabled(m: Manager, a: Act) {
    match a
    case Add(s) => s !in m.added
    case SetLocked(s, _) => s in m.added
    case Choose(s) => s in m.added && s !in m.locked
    case ChooseAll => true
    case Reconnect(s) => s in m.added
    case Close(s) => s in m.chosen
    case End(s) => s in m.added
    case Drop(s) => s in m.closed || s in m.ended
    case Arm(id) => id in m.reg && id !in m.timers
    case Cancel(_) => true
    case Elapse(t) => t in m.armed
    case Fire(t, _) => t in m.waiting
  }

  /** Stop the timer that the map has for an id, if it has not elapsed, and drop the entry. */
  function Stopped(m: Manager, id: string): Manager {
    m.(timers := m.timers - {id}, armed := if id in m.timers then m.armed - {m.timers[id]} else m.armed)
  }

  /** The function of a timer: the session is closed and taken off at once, and the entry goes, whatever
      timer it is for. */
  function Fired(m: Manager, t: nat, idle: bool): Manager
    requires t in m.waiting
  {
    var id := m.waiting[t];
    var done := m.(waiting := m.waiting - {t}, timers := m.timers - {id});
    if idle && id in m.reg then done.(closed := m.closed + {m.reg[id]}, reg := m.reg - {id}) else done
  }

  function Do(m: Manager, a: Act): Manager
    requires Enabled(m, a)
  {
    match a
    case Add(s) => m.(reg := m.reg[s.id := s], added := m.added + {s})
    case SetLocked(s, locked) => m.(locked := if locked then m.locked + {s} else m.locked - {s})
    case Choose(s) => m.(chosen := m.chosen + {s})
    case ChooseAll => m.(chosen := m.chosen + (m.reg.Values - m.locked))
    case Reconnect(s) => m.(closed := m.closed + {s})
    case Close(s) => m.(closed := m.closed + {s})
    case End(s) => m.(ended := m.ended + {s})
    case Drop(s) => Stopped(m, s.id).(reg := m.reg - {s.id})
    case Arm(id) => m.(timers := m.timers[id := m.next], armed := m.armed[m.next := id], next := m.next + 1)
    case Cancel(id) => Stopped(m, id)
    case Elapse(t) => m.(armed := m.armed - {t}, waiting := m.waiting[t := m.armed[t]])
    case Fire(t, idle) => Fired(m, t, idle)
  }

  predicate CanDo(m: Manager, acts: seq<Act>)
    decreases |acts|
  {
    acts == [] || (Enabled(m, acts[0]) && CanDo(Do(m, acts[0]), acts[1..]))
  }

  function After(m: Manager, acts: seq<Act>): Manager
    requires CanDo(m, acts)
    decreases |acts|
  {
    if acts == [] then m else After(Do(m, acts[0]), acts[1..])
  }

  predicate Inv(m: Manager) {
    && (forall id <- m.reg :: m.reg[id].id == id && m.reg[id] in m.added)
    && m.chosen <= m.added && m.closed <= m.added && m.ended <= m.added
    && m.timers.Keys <= m.reg.Keys
    && (forall id <- m.timers :: HasId(m, m.timers[id], id))
    && (forall t <- m.armed :: t < m.next && t !in m.waiting) && (forall t <- m.waiting :: t < m.next)
  }

  /** A timer that is not over, and its id. */
  predicate HasId(m: Manager, t: nat, id: string) {
    (t in m.armed && m.armed[t] == id) || (t in m.waiting && m.waiting[t] == id)
  }

  lemma {:induction false} StepSessions(m: Manager, a: Act)
    requires Inv(m) && Enabled(m, a)
    ensures var m' := Do(m, a);
      && (forall id <- m'.reg :: m'.reg[id].id == id && m'.reg[id] in m'.added)
      && m'.chosen <= m'.added && m'.closed <= m'.added && m'.ended <= m'.added
      && m.added <= m'.added && m.closed <= m'.closed && m.ended <= m'.ended
  {
  }

  lemma {:induction false} StepTimers(m: Manager, a: Act)
    requires Inv(m) && Enabled(m, a)
    ensures var m' := Do(m, a);
      && m'.timers.Keys <= m'.reg.Keys && m.next <= m'.next
      && (forall t <- m'.armed :: t < m'.next && t !in m'.waiting) && (forall t <- m'.waiting :: t < m'.next)
  {
  }

  lemma {:induction false} StepEntries(m: Manager, a: Act)
    requires Inv(m) && Enabled(m, a)
    ensures var m' := Do(m, a); forall id <- m'.timers :: HasId(m', m'.timers[id], id)
  {
    var m' := Do(m, a);
    forall id | id in m'.timers ensures HasId(m', m'.timers[id], id) {
      assert id in m.timers ==> HasId(m, m.timers[id], id);
    }
  }

  lemma {:induction false} StepInv(m: Manager, a: Act)
    requires Inv(m) && Enabled(m, a)
    ensures Inv(Do(m, a)) && m.next <= Do(m, a).next
    ensures m.added <= Do(m, a).added && m.closed <= Do(m, a).closed && m.ended <= Do(m, a).ended
  {
    StepSessions(m, a);
    StepTimers(m, a);
    StepEntries(m, a);
  }

  /** In every run sessions are registered under their own ids, and what was closed stays closed. */
  lemma {:induction false} RunInv(m: Manager, acts: seq<Act>)
    requires Inv(m) && CanDo(m, acts)
    ensures var end := After(m, acts); Inv(end) && m.added <= end.added && m.closed <= end.closed && m.ended <= end.ended
    decreases |acts|
  {
    if acts != [] {
      StepInv(m, acts[0]);
      RunInv(Do(m, acts[0]), acts[1..]);
    }
  }

  // ---- Sessions that get lost ----

  /** The step takes `s` off the manager on behalf of another session with the same id. */
  predicate Displaces(m: Manager, a: Act, s: Sess) {
    Registered(m, s) && (a.Add? || a.Drop?) && a.s != s && a.s.id == s.id
  }

  predicate Displaced(m: Manager, acts: seq<Act>, s: Sess)
    requires CanDo(m, acts)
    decreases |acts|
  {
    acts != [] && (Displaces(m, acts[0], s) || Displaced(Do(m, acts[0]), acts[1..], s))
  }

  /** A session is registered once. */
  lemma {:induction false} GoneStays(m: Manager, acts: seq<Act>, s: Sess)
    requires CanDo(m, acts) && s in m.added && !Registered(m, s)
    ensures !Registered(After(m, acts), s)
    decreases |acts|
  {
    if acts != [] {
      GoneStays(Do(m, acts[0]), acts[1..], s);
    }
  }

  lemma {:induction false} StepKeeps(m: Manager, a: Act, s: Sess)
    requires Inv(m) && Enabled(m, a) && Registered(m, s) && Open(Do(m, a), s)
    ensures Registered(Do(m, a), s) <==> !Displaces(m, a, s)
  {
  }

  /** Whatever interleaves, a session that is still open at the end is still registered exactly if no
      step on behalf of another session with its id took it off. */
  lemma {:induction false} LostExactly(m: Manager, acts: seq<Act>, s: Sess)
    requires Inv(m) && CanDo(m, acts) && Registered(m, s) && Open(After(m, acts), s)
    ensures Registered(After(m, acts), s) <==> !Displaced(m, acts, s)
    decreases |acts|
  {
    if acts != [] {
      var m' := Do(m, acts[0]);
      StepInv(m, acts[0]);
      RunInv(m', acts[1..]);
      StepKeeps(m, acts[0], s);
      if Registered(m', s) {
        LostExactly(m', acts[1..], s);
      } else {
        GoneStays(m', acts[1..], s);
      }
    }
  }

  lemma {:induction false} DisplacedBy(m: Manager, acts: seq<Act>, s: Sess)
    requires Inv(m) && CanDo(m, acts) && Displaced(m, acts, s)
    ensures exists t :: t in After(m, acts).added && t != s && t.id == s.id
    decreases |acts|
  {
    var m' := Do(m, acts[0]);
    StepInv(m, acts[0]);
    RunInv(m', acts[1..]);
    if Displaces(m, acts[0], s) {
      assert acts[0].s in After(m, acts).added;
    } else {
      DisplacedBy(m', acts[1..], s);
    }
  }

  /** Main result on sessions. Whatever interleaves, as long as no other session with the same id was ever
      added, an open session stays registered. */
  lemma {:induction false} FreshIds(m: Manager, acts: seq<Act>, s: Sess)
    requires Inv(m) && CanDo(m, acts) && Registered(m, s) && Open(After(m, acts), s)
    requires forall t <- After(m, acts).added :: t.id == s.id ==> t == s
    ensures Registered(After(m, acts), s)
  {
    LostExactly(m, acts, s);
    if Displaced(m, acts, s) {
      DisplacedBy(m, acts, s);
    }
  }

  lemma {:induction false} First(m: Manager, a: Act, rest: seq<Act>)
    requires Enabled(m, a)
    ensures CanDo(m, [a] + rest) <==> CanDo(Do(m, a), rest)
    ensures CanDo(m, [a] + rest) ==> After(m, [a] + rest) == After(Do(m, a), rest)
  {
    assert ([a] + rest)[1..] == rest;
  }

  function Reconnects(a: Sess, b: Sess): seq<Act> {
    [Add(a)] + ([Reconnect(a)] + ([Drop(a)] + ([Add(b)] + ([End(a)] + ([Drop(a)] + [])))))
  }

  /** It does happen: a client reconnects under the old id, and then the reader of the old session stops
      and takes the new one off. */
  lemma {:induction false} ReconnectLoses(a: Sess, b: Sess)
    requires a != b && a.id == b.id
    ensures CanDo(START, Reconnects(a, b))
    ensures var end := After(START, Reconnects(a, b)); Open(end, b) && !Registered(end, b)
  {
    var m1 := Do(START, Add(a));
    var m2 := Do(m1, Reconnect(a));
    var m3 := Do(m2, Drop(a));
    var m4 := Do(m3, Add(b));
    var m5 := Do(m4, End(a));
    First(m5, Drop(a), []);
    First(m4, End(a), [Drop(a)] + []);
    First(m3, Add(b), [End(a)] + ([Drop(a)] + []));
    First(m2, Drop(a), [Add(b)] + ([End(a)] + ([Drop(a)] + [])));
    First(m1, Reconnect(a), [Drop(a)] + ([Add(b)] + ([End(a)] + ([Drop(a)] + []))));
    First(START, Add(a), [Reconnect(a)] + ([Drop(a)] + ([Add(b)] + ([End(a)] + ([Drop(a)] + [])))));
  }

  // ---- Locked sessions ----

  /** The user does not unlock `s`, no client reconnects to it, and no timer finds it idle. */
  predicate LeavesAlone(m: Manager, acts: seq<Act>, s: Sess)
    requires CanDo(m, acts)
    decreases |acts|
  {
    acts != [] ==>
      && acts[0] != SetLocked(s, false) && acts[0] != Reconnect(s)
      && !(acts[0].Fire? && acts[0].idle && m.waiting[acts[0].t] == s.id)
      && LeavesAlone(Do(m, acts[0]), acts[1..], s)
  }

  /** A session that stays locked and was not chosen before is not told to stop by those who close
      unlocked sessions, however their steps interleave; a reconnect and the timer do not look. */
  lemma {:induction false} LockedSafe(m: Manager, acts: seq<Act>, s: Sess)
    requires Inv(m) && CanDo(m, acts) && LeavesAlone(m, acts, s)
    requires s in m.locked && s !in m.chosen && s !in m.closed
    ensures var end := After(m, acts); s !in end.chosen && s !in end.closed
    decreases |acts|
  {
    if acts != [] {
      StepInv(m, acts[0]);
      LockedSafe(Do(m, acts[0]), acts[1..], s);
    }
  }

  /** Locking a session after it was chosen comes too late. */
  lemma {:induction false} LockedTooLate(m: Manager, s: Sess)
    requires s in m.added && s !in m.locked
    ensures var acts := [Choose(s)] + ([SetLocked(s, true)] + ([Close(s)] + []));
      CanDo(m, acts) && s in After(m, acts).locked && s in After(m, acts).closed
  {
    var m1 := Do(m, Choose(s));
    var m2 := Do(m1, SetLocked(s, true));
    First(m2, Close(s), []);
    First(m1, SetLocked(s, true), [Close(s)] + []);
    First(m, Choose(s), [SetLocked(s, true)] + ([Close(s)] + []));
  }

  // ---- Timers ----

  /** The timer has not elapsed, but the map does not know it: nobody can stop it any more. */
  predicate Stray(m: Manager, t: nat) {
    t in m.armed && !(m.armed[t] in m.timers && m.timers[m.armed[t]] == t)
  }

  /** Another timer for the id is not over. */
  ghost predicate OtherAlive(m: Manager, t: nat, id: string) {
    exists u :: u != t && HasId(m, u, id)
  }

  lemma {:induction false} StaysOnly(m: Manager, a: Act, t: nat, id: string)
    requires Inv(m) && Enabled(m, a)
    requires t in m.armed && m.armed[t] == id && !Stray(m, t) && !OtherAlive(m, t, id) && t in Do(m, a).armed
    ensures var m' := Do(m, a); m'.armed[t] == id && !Stray(m', t) && !OtherAlive(m', t, id)
  {
    var m' := Do(m, a);
    forall u | u != t ensures !HasId(m', u, id) {
      assert !HasId(m, u, id);
    }
    if a.Fire? {
      assert !HasId(m, a.t, id);
    }
  }

  /** While it has not elapsed, a timer that is alone for its id stays in the map. */
  lemma {:induction false} NeverStray(m: Manager, acts: seq<Act>, t: nat, id: string)
    requires Inv(m) && CanDo(m, acts)
    requires t in m.armed && m.armed[t] == id && !Stray(m, t) && !OtherAlive(m, t, id)
    ensures !Stray(After(m, acts), t)
    decreases |acts|
  {
    if acts != [] {
      var m' := Do(m, acts[0]);
      StepInv(m, acts[0]);
      if t in m'.armed {
        StaysOnly(m, acts[0], t, id);
        NeverStray(m', acts[1..], t, id);
      } else {
        OverStays(m', acts[1..], t);
      }
    }
  }

  /** A timer is armed once. */
  lemma {:induction false} OverStays(m: Manager, acts: seq<Act>, t: nat)
    requires Inv(m) && CanDo(m, acts) && t !in m.armed && t < m.next
    ensures t !in After(m, acts).armed
    decreases |acts|
  {
    if acts != [] {
      StepInv(m, acts[0]);
      OverStays(Do(m, acts[0]), acts[1..], t);
    }
  }

  ghost predicate CanStray(m: Manager, t: nat) {
    exists acts :: CanDo(m, acts) && Stray(After(m, acts), t)
  }

  /** The other timer fires first and takes the entry with it. */
  lemma {:induction false} FireFirst(m: Manager, t: nat, u: nat, idle: bool)
    requires Inv(m) && t in m.armed && u != t && HasId(m, u, m.armed[t])
    ensures CanStray(m, t)
  {
    if u in m.waiting && m.waiting[u] == m.armed[t] {
      First(m, Fire(u, idle), []);
      assert Stray(After(m, [Fire(u, idle)] + []), t);
    } else {
      var m1 := Do(m, Elapse(u));
      First(m1, Fire(u, idle), []);
      First(m, Elapse(u), [Fire(u, idle)] + []);
      assert Stray(After(m, [Elapse(u)] + ([Fire(u, idle)] + [])), t);
    }
  }

  /** Main result on timers. When `ClearInactive` arms a timer, some interleaving can leave that timer
      running without an entry exactly if an older timer for the id is not over yet: it was cancelled
      too late, or was itself left without an entry. */
  lemma {:induction false} StrayExactly(m: Manager, id: string)
    requires Inv(m) && Enabled(m, Arm(id))
    ensures CanStray(Do(m, Arm(id)), m.next) <==> exists u :: HasId(m, u, id)
  {
    var t := m.next;
    var m' := Do(m, Arm(id));
    StepInv(m, Arm(id));
    if u :| HasId(m, u, id) {
      assert HasId(m', u, id);
      FireFirst(m', t, u, true);
    } else {
      forall u | u != t ensures !HasId(m', u, id) {
        assert !HasId(m, u, id);
      }
      forall acts | CanDo(m', acts) ensures !Stray(After(m', acts), t) {
        NeverStray(m', acts, t, id);
      }
    }
  }

  function LateCancel(s: Sess): seq<Act> {
    [Add(s)] + ([Arm(s.id)] + ([Elapse(0)] + ([Cancel(s.id)] + ([Arm(s.id)] + ([Fire(0, true)] + [])))))
  }

  /** It does happen: the function of the first timer has started when a client comes back and cancels it;
      the client leaves, a second timer is armed, and then the first function ends the session. The
      second timer goes on, for no registered session. */
  lemma {:induction false} StrayTimer(s: Sess)
    ensures CanDo(START, LateCancel(s))
    ensures var end := After(START, LateCancel(s)); Inv(end) && Stray(end, 1) && end.armed[1] == s.id && s.id !in end.reg
  {
    var m1 := Do(START, Add(s));
    var m2 := Do(m1, Arm(s.id));
    var m3 := Do(m2, Elapse(0));
    var m4 := Do(m3, Cancel(s.id));
    var m5 := Do(m4, Arm(s.id));
    First(m5, Fire(0, true), []);
    First(m4, Arm(s.id), [Fire(0, true)] + []);
    First(m3, Cancel(s.id), [Arm(s.id)] + ([Fire(0, true)] + []));
    First(m2, Elapse(0), [Cancel(s.id)] + ([Arm(s.id)] + ([Fire(0, true)] + [])));
    First(m1, Arm(s.id), [Elapse(0)] + ([Cancel(s.id)] + ([Arm(s.id)] + ([Fire(0, true)] + []))));
    First(START, Add(s), [Arm(s.id)] + ([Elapse(0)] + ([Cancel(s.id)] + ([Arm(s.id)] + ([Fire(0, true)] + [])))));
    RunInv(START, LateCancel(s));
  }

  /** And such a timer can end a later session with that id before anybody listens to it. */
  lemma {:induction false} StrayEnds(m: Manager, t: nat, s: Sess)
    requires Inv(m) && Stray(m, t) && m.armed[t] == s.id && s !in m.added
    ensures var acts := [Add(s)] + ([Elapse(t)] + ([Fire(t, true)] + []));
      CanDo(m, acts) && s in After(m, acts).closed && s.id !in After(m, acts).reg
  {
    var m1 := Do(m, Add(s));
    var m2 := Do(m1, Elapse(t));
    First(m2, Fire(t, true), []);
    First(m1, Elapse(t), [Fire(t, true)] + []);
    First(m, Add(s), [Elapse(t)] + ([Fire(t, true)] + []));
  }
}
