/** Session bookkeeping between the control client and the WebRTC manager
    (accelerator_control_client.cpp, webrtc_manager.cpp). */
module Sessions {
  import opened Common

  /** How the part of CreateSession that talks to the peer ends, when it returns: with an
      answer, with a refusal, or without an answer in time or with an exception. */
  datatype Negotiation = Answered | Rejected | Failed

  datatype SessionEvent =
    | StartSession(id: string, offer: string, negotiation: Negotiation)
    | CloseSession(id: string)
    | Cleanup(gone: set<string>)
    | BeginTeardown
    | CloseNext

  /** The ids the manager has sessions for, the client's list of active ids, and those ids a
      teardown has taken over and still has to close. */
  datatype Books = Books(sessions: set<string>, active: seq<string>, closing: seq<string>)

  const EMPTY: Books := Books({}, [], [])

  function Ids(active: seq<string>): set<string> {
    set id | id in active
  }

  /** CreateSession gets as far as talking to the peer. */
  predicate Negotiates(sessions: set<string>, id: string, offer: string) {
    id != "" && offer != "" && id !in sessions
  }

  predicate Creates(b: Books, id: string, offer: string, negotiation: Negotiation) {
    Negotiates(b.sessions, id, offer) && negotiation == Answered
  }

  /** The list without any occurrence of `id`. */
  function Erased(active: seq<string>, id: string): (r: seq<string>)
    ensures forall x :: x in r <==> x in active && x != id
  {
    if active == [] then []
    else
      assert active == [active[0]] + active[1..];
      if active[0] == id then Erased(active[1..], id) else [active[0]] + Erased(active[1..], id)
  }

  function Step(b: Books, e: SessionEvent): Books {
    match e
    case StartSession(id, offer, negotiation) =>
      var sessions := if Creates(b, id, offer, negotiation) then b.sessions + {id} else b.sessions;
      b.(sessions := sessions, active := b.active + [id])
    case CloseSession(id) => b.(sessions := b.sessions - {id}, active := Erased(b.active, id))
    case Cleanup(gone) => b.(sessions := b.sessions - gone)
    case BeginTeardown => b.(active := [], closing := b.closing + b.active)
    case CloseNext =>
      if b.closing == [] then b
      else b.(sessions := b.sessions - {b.closing[0]}, closing := b.closing[1..])
  }

  function Run(es: seq<SessionEvent>): Books {
    if es == [] then EMPTY else Step(Run(es[..|es| - 1]), es[|es| - 1])
  }

  /** After any events, the sessions of the manager are among those the client lists and those
      a teardown is about to close. */
  lemma {:induction false} SessionsAreTracked(es: seq<SessionEvent>)
    ensures Run(es).sessions <= Ids(Run(es).active) + Ids(Run(es).closing)
  {
    if es != [] {
      var b, e := Run(es[..|es| - 1]), es[|es| - 1];
      SessionsAreTracked(es[..|es| - 1]);
      match e {
        case StartSession(id, _, _) => assert Ids(b.active + [id]) == Ids(b.active) + {id};
        case BeginTeardown => assert Ids(b.closing + b.active) == Ids(b.closing) + Ids(b.active);
        case CloseNext =>
          if b.closing != [] {
            assert b.closing == [b.closing[0]] + b.closing[1..];
            assert Ids(b.closing) == {b.closing[0]} + Ids(b.closing[1..]);
          }
        case _ =>
      }
    }
  }

  /** What happens while the client's thread is in a teardown: its own closes, and whatever
      cleanups the other thread runs in between. */
  predicate DuringTeardown(es: seq<SessionEvent>) {
    forall e :: e in es ==> e.CloseNext? || e.Cleanup?
  }

  function Closes(es: seq<SessionEvent>): nat {
    if es == [] then 0 else Closes(es[..|es| - 1]) + if es[|es| - 1].CloseNext? then 1 else 0
  }

  lemma {:induction false} ClosesAdd(es: seq<SessionEvent>, more: seq<SessionEvent>)
    ensures Closes(es + more) == Closes(es) + Closes(more)
    ensures DuringTeardown(es) && DuringTeardown(more) ==> DuringTeardown(es + more)
  {
    if more == [] {
      assert es + more == es;
    } else {
      ClosesAdd(es, more[..|more| - 1]);
      assert (es + more)[..|es + more| - 1] == es + more[..|more| - 1];
    }
  }

  lemma RunSteps(es: seq<SessionEvent>, e: SessionEvent)
    ensures Run(es + [e]) == Step(Run(es), e)
  {
    assert (es + [e])[..|es|] == es;
  }

  lemma StepInTeardown(b: Books, e: SessionEvent)
    requires e.CloseNext? || e.Cleanup?
    ensures Step(b, e).active == b.active
    ensures Step(b, e).closing == if e.CloseNext? && b.closing != [] then b.closing[1..] else b.closing
  {
  }

  lemma {:induction false} TeardownProceeds(es: seq<SessionEvent>, rest: seq<SessionEvent>)
    requires DuringTeardown(rest) && Run(es).active == []
    ensures Run(es + rest).active == []
    ensures Run(es + rest).closing ==
            if Closes(rest) <= |Run(es).closing| then Run(es).closing[Closes(rest)..] else []
  {
    hide Run, Step;
    if rest == [] {
      assert es + rest == es;
    } else {
      var before, e := rest[..|rest| - 1], rest[|rest| - 1];
      TeardownProceeds(es, before);
      assert rest == before + [e] && es + rest == es + before + [e] && e in rest;
      RunSteps(es + before, e);
      StepInTeardown(Run(es + before), e);
    }
  }

  /** A teardown that has closed as many sessions as it took over leaves nothing on either
      side, whatever happened before it and whichever sessions went to a cleanup meanwhile. */
  lemma TeardownLeavesNothing(es: seq<SessionEvent>, rest: seq<SessionEvent>)
    requires DuringTeardown(rest) && Closes(rest) >= |Run(es).closing| + |Run(es).active|
    ensures Run(es + [BeginTeardown] + rest) == EMPTY
  {
    RunSteps(es, BeginTeardown);
    TeardownProceeds(es + [BeginTeardown], rest);
    SessionsAreTracked(es + [BeginTeardown] + rest);
  }

  datatype Session = Session(lastHeartbeat: int)

  /** The cleanup thread lets a session be silent for this many seconds. */
  const SESSION_TIMEOUT := 30

  function Inactive(sessions: map<string, Session>, timeout: int, now: int): set<string> {
    set id | id in sessions && now - sessions[id].lastHeartbeat > timeout
  }

  class Manager {
    const initialized: bool
    var sessions: map<string, Session>
    var sessionChannels: map<string, nat>

    constructor (initialized: bool)
      ensures sessions == map[] && sessionChannels == map[] && this.initialized == initialized
    {
      this.initialized := initialized;
      sessions := map[];
      sessionChannels := map[];
    }

    method RemoveSession(id: string)
      modifies this
      ensures sessions == old(sessions) - {id} && sessionChannels == old(sessionChannels) - {id}
    {
      sessions := sessions - {id};
      sessionChannels := sessionChannels - {id};
    }

    method CreateSession(id: string, offer: string, negotiation: Negotiation, now: int) returns (ok: bool)
      modifies this
      ensures ok <==> initialized && id != "" && offer != "" && id !in old(sessions) && negotiation == Answered
      ensures sessions == if ok then old(sessions)[id := Session(now)] else old(sessions)
      ensures sessionChannels ==
              if initialized && id != "" && offer != "" && id !in old(sessions) && negotiation == Failed
              then old(sessionChannels) - {id}
              else old(sessionChannels)
    {
      if !initialized {
        return false;
      }
      if id == "" || offer == "" {
        return false;
      }
      if id in sessions {
        return false;
      }
      match negotiation {
        case Rejected =>
          return false;
        case Failed =>
          RemoveSession(id);
          return false;
        case Answered =>
          sessions := sessions[id := Session(now)];
          return true;
      }
    }

    /** A session is gone afterwards even when an exception cuts closing it short. */
    method CloseSession(id: string, throws: bool) returns (closed: bool)
      modifies this
      ensures closed == (id in old(sessions) && !throws)
      ensures sessions == old(sessions) - {id}
      ensures sessionChannels == if id in old(sessions) then old(sessionChannels) - {id} else old(sessionChannels)
    {
      if id !in sessions {
        return false;
      }
      RemoveSession(id);
      return !throws;
    }

    method FindInactive(timeout: int, now: int) returns (inactive: set<string>)
      ensures inactive == Inactive(sessions, timeout, now)
    {
      inactive := {};
      var todo := sessions.Keys;
      while todo != {}
        invariant todo <= sessions.Keys
        invariant inactive == set id | id in sessions && id !in todo && now - sessions[id].lastHeartbeat > timeout
        decreases |todo|
      {
        var id :| id in todo;
        if now - sessions[id].lastHeartbeat > timeout {
          inactive := inactive + {id};
        }
        todo := todo - {id};
      }
    }

    method EraseAll(gone: set<string>)
      modifies this
      ensures sessions == old(sessions) - gone && sessionChannels == old(sessionChannels) - gone
    {
      var erase := gone;
      ghost var done: set<string> := {};
      while erase != {}
        invariant done + erase == gone
        invariant sessions == old(sessions) - done && sessionChannels == old(sessionChannels) - done
        decreases |erase|
      {
        var id :| id in erase;
        RemoveSession(id);
        erase := erase - {id};
        done := done + {id};
      }
      assert done == gone;
    }

    /** Exactly the sessions that were silent for longer than the timeout go. */
    method CleanupInactiveSessions(timeout: int, now: int) returns (removed: set<string>)
      modifies this
      ensures removed == Inactive(old(sessions), timeout, now)
      ensures forall id :: id in removed <==> id in old(sessions) && now - old(sessions)[id].lastHeartbeat > timeout
      ensures sessions == old(sessions) - removed && sessionChannels == old(sessionChannels) - removed
    {
      removed := FindInactive(timeout, now);
      EraseAll(removed);
    }
  }

  class Client {
    const manager: Manager
    var activeSessionIds: seq<string>
    ghost var closing: seq<string>
    ghost var history: seq<SessionEvent>

    ghost function State(): Books
      reads this, manager
    {
      Books(manager.sessions.Keys, activeSessionIds, closing)
    }

    /** The books are those the events so far lead to. */
    ghost predicate Valid()
      reads this, manager
    {
      manager.initialized && State() == Run(history)
    }

    constructor (manager: Manager)
      requires manager.initialized && manager.sessions == map[]
      ensures Valid() && this.manager == manager && history == [] && closing == []
    {
      this.manager := manager;
      activeSessionIds, closing, history := [], [], [];
    }

    ghost method Record(e: SessionEvent)
      requires manager.initialized && State() == Step(Run(history), e)
      modifies this`history
      ensures Valid() && history == old(history) + [e]
    {
      RunSteps(history, e);
      history := history + [e];
    }

    /** The id is listed whether or not the session could be created. */
    method HandleStartSession(id: string, offer: string, negotiation: Negotiation, now: int) returns (ok: bool)
      requires Valid()
      modifies this, manager
      ensures Valid() && history == old(history) + [StartSession(id, offer, negotiation)]
      ensures activeSessionIds == old(activeSessionIds) + [id] && closing == old(closing)
      ensures ok <==> id != "" && offer != "" && id !in old(manager.sessions) && negotiation == Answered
      ensures manager.sessions == if ok then old(manager.sessions)[id := Session(now)] else old(manager.sessions)
    {
      ok := manager.CreateSession(id, offer, negotiation, now);
      activeSessionIds := activeSessionIds + [id];
      Record(StartSession(id, offer, negotiation));
    }

    method HandleCloseSession(id: string, throws: bool)
      requires Valid()
      modifies this, manager
      ensures Valid() && history == old(history) + [CloseSession(id)]
      ensures manager.sessions == old(manager.sessions) - {id} && closing == old(closing)
      ensures activeSessionIds == Erased(old(activeSessionIds), id)
    {
      var closed := manager.CloseSession(id, throws);
      activeSessionIds := Erased(activeSessionIds, id);
      Record(CloseSession(id));
    }

    method InactivityCleanup(timeout: int, now: int)
      requires Valid()
      modifies this`history, manager
      ensures Valid() && history == old(history) + [Cleanup(Inactive(old(manager.sessions), timeout, now))]
      ensures manager.sessions == map id | id in old(manager.sessions)
                                           && now - old(manager.sessions)[id].lastHeartbeat <= timeout
                                         :: old(manager.sessions)[id]
    {
      var removed := manager.CleanupInactiveSessions(timeout, now);
      Record(Cleanup(removed));
    }

    /** The cleanup thread wakes up: sessions heard of in the last thirty seconds stay. */
    method CleanupTick(now: int)
      requires Valid()
      modifies this`history, manager
      ensures Valid()
      ensures history == old(history) + [Cleanup(Inactive(old(manager.sessions), SESSION_TIMEOUT, now))]
      ensures manager.sessions == map id | id in old(manager.sessions)
                                           && now - old(manager.sessions)[id].lastHeartbeat <= 30
                                         :: old(manager.sessions)[id]
    {
      InactivityCleanup(SESSION_TIMEOUT, now);
    }

    /** The cleanup thread comes by at the given times. */
    method Cleanups(times: seq<int>) returns (ghost passed: seq<SessionEvent>)
      requires Valid()
      modifies this`history, manager
      ensures Valid() && history == old(history) + passed
      ensures DuringTeardown(passed) && Closes(passed) == 0
    {
      passed := [];
      for i := 0 to |times|
        invariant Valid() && history == old(history) + passed
        invariant DuringTeardown(passed) && Closes(passed) == 0
      {
        ghost var e := Cleanup(Inactive(manager.sessions, SESSION_TIMEOUT, times[i]));
        CleanupTick(times[i]);
        assert (passed + [e])[..|passed|] == passed;
        passed := passed + [e];
      }
    }

    /** The next session on the list is closed, after the cleanup thread came by. */
    method CloseOne(id: string, throws: bool, times: seq<int>) returns (ghost passed: seq<SessionEvent>)
      requires Valid() && closing != [] && closing[0] == id
      modifies this`closing, this`history, manager
      ensures Valid() && history == old(history) + passed && closing == old(closing)[1..]
      ensures DuringTeardown(passed) && Closes(passed) == 1
    {
      passed := Cleanups(times);
      var closed := manager.CloseSession(id, throws);
      closing := closing[1..];
      Record(CloseNext);
      ClosesAdd(passed, [CloseNext]);
      passed := passed + [CloseNext];
    }

    /** The list is taken over and emptied first, then every session on it is closed, with the
        cleanup thread coming by at the given times before each close; nothing is left on
        either side, whichever of them close with an exception. */
    method TeardownLocalSessions(throwing: set<string>, cleanups: nat -> seq<int>)
      returns (ghost rest: seq<SessionEvent>)
      requires Valid() && closing == []
      modifies this, manager
      ensures Valid() && history == old(history) + [BeginTeardown] + rest
      ensures DuringTeardown(rest) && Closes(rest) == |old(activeSessionIds)|
      ensures manager.sessions == map[] && activeSessionIds == [] && closing == []
    {
      hide Run, Step;
      var ids := activeSessionIds;
      BeginsTeardown(State());
      activeSessionIds, closing := [], ids;
      Record(BeginTeardown);
      rest := [];
      for i := 0 to |ids|
        invariant Valid() && closing == ids[i..] && activeSessionIds == []
        invariant history == old(history) + [BeginTeardown] + rest
        invariant DuringTeardown(rest) && Closes(rest) == i
      {
        ghost var passed := CloseOne(ids[i], ids[i] in throwing, cleanups(i));
        ClosesAdd(rest, passed);
        rest := rest + passed;
      }
      SessionsAreTracked(history);
      assert manager.sessions.Keys == {};
    }
  }

  lemma BeginsTeardown(b: Books)
    requires b.closing == []
    ensures Step(b, BeginTeardown) == Books(b.sessions, [], b.active)
  {
  }
}
