/** norduser/process_monitor.go: the tracked users over every run of events. */
module ProcessMonitoring {
  import opened Options
  import opened Sessions

  /** The tracked users with their states, the log of service calls and, for each tracked user, how many
      calls had worked for that name before tracking began. */
  datatype Snapshot = Snapshot(members: map<string, State>, log: seq<Call>, since: map<string, nat>)

  datatype Event =
    | Unreadable
    | Utmp(active: map<string, Login>, outcomes: string -> Outcome)
    | Group(names: seq<string>, active: map<string, Login>, outcomes: string -> Outcome)

  function Target(user: string, active: map<string, Login>): State {
    if user in active then active[user] else NotActive
  }

  /** The change that an event makes to one user, tracked before or after it. */
  function TargetOf(user: string, e: Event, members: map<string, State>): Option<State> {
    match e
    case Unreadable => None
    case Utmp(active, _) => if user in members then Some(Target(user, active)) else None
    case Group(names, active, _) =>
      if user in members then if user in names then None else Some(NotActive)
      else if user in names then Some(Target(user, active)) else None
  }

  function Before(user: string, members: map<string, State>): State {
    if user in members then members[user] else NotActive
  }

  function After(user: string, e: Event, members: map<string, State>): State {
    match TargetOf(user, e, members)
    case None => Before(user, members)
    case Some(target) => Changed(Before(user, members), target, e.outcomes(user))
  }

  function CallsFor(user: string, e: Event, members: map<string, State>): seq<Call> {
    match TargetOf(user, e, members)
    case None => []
    case Some(target) => Calls(user, Before(user, members), target, e.outcomes(user))
  }

  predicate TrackedAfter(user: string, e: Event, members: map<string, State>) {
    if e.Group? then user in e.names else user in members
  }

  function Worked(log: seq<Call>, user: string): seq<Action> {
    Succeeded(CallsOf(log, user))
  }

  /** One event, whatever the order in which the users are visited. */
  ghost predicate Step(s: Snapshot, e: Event, t: Snapshot) {
    && (forall u :: u in t.members <==> TrackedAfter(u, e, s.members))
    && (forall u :: u in t.members ==> t.members[u] == After(u, e, s.members))
    && s.log <= t.log
    && (forall u :: CallsOf(t.log, u) == CallsOf(s.log, u) + CallsFor(u, e, s.members))
    && t.since.Keys == t.members.Keys
    && (forall u :: u in t.since ==> t.since[u] == if u in s.since then s.since[u] else |Worked(s.log, u)|)
  }

  /** The log has grown by the calls for the users dealt with, in some order. */
  ghost predicate Grown(log0: seq<Call>, log: seq<Call>, dealt: set<string>, e: Event, was: map<string, State>) {
    && log0 <= log
    && forall u :: CallsOf(log, u) == CallsOf(log0, u) + if u in dealt then CallsFor(u, e, was) else []
  }

  lemma GrownNext(log0: seq<Call>, log: seq<Call>, dealt: set<string>, e: Event, was: map<string, State>, user: string)
    requires Grown(log0, log, dealt, e, was) && user !in dealt
    ensures Grown(log0, log + CallsFor(user, e, was), dealt + {user}, e, was)
  {
    forall u
      ensures CallsOf(log + CallsFor(user, e, was), u) ==
              CallsOf(log0, u) + if u in dealt + {user} then CallsFor(u, e, was) else []
    {
      CallsGrow(log, e, was, user, u);
      if u == user {
        assert CallsOf(log, u) == CallsOf(log0, u);
      }
    }
  }

  lemma CallsGrow(log: seq<Call>, e: Event, was: map<string, State>, user: string, u: string)
    ensures CallsOf(log + CallsFor(user, e, was), u) ==
            CallsOf(log, u) + if u == user then CallsFor(user, e, was) else []
  {
    CallsOfAppend(log, CallsFor(user, e, was), u);
    if TargetOf(user, e, was).Some? {
      CallsAre(user, Before(user, was), TargetOf(user, e, was).value, e.outcomes(user), u);
    }
  }

  /** The event has been handled for some users: their states are new, the others' are not. */
  ghost predicate Handled(members: map<string, State>, log0: seq<Call>, log: seq<Call>, dealt: set<string>, e: Event,
                          was: map<string, State>)
  {
    && (forall u :: u in members ==> members[u] == if u in dealt then After(u, e, was) else Before(u, was))
    && Grown(log0, log, dealt, e, was)
  }

  lemma VisitIs(user: string, e: Event, was: map<string, State>)
    requires e.Utmp? && user in was
    ensures After(user, e, was) == Changed(was[user], Target(user, e.active), e.outcomes(user))
    ensures CallsFor(user, e, was) == Calls(user, was[user], Target(user, e.active), e.outcomes(user))
  {
  }

  lemma NewcomerIs(user: string, e: Event, was: map<string, State>)
    requires e.Group? && user !in was && user in e.names
    ensures After(user, e, was) == Changed(NotActive, Target(user, e.active), e.outcomes(user))
    ensures CallsFor(user, e, was) == Calls(user, NotActive, Target(user, e.active), e.outcomes(user))
  {
  }

  lemma LeaverIs(user: string, e: Event, was: map<string, State>)
    requires e.Group? && user in was && user !in e.names
    ensures CallsFor(user, e, was) == Calls(user, was[user], NotActive, e.outcomes(user))
  {
  }

  lemma HandledNone(members: map<string, State>, log: seq<Call>, e: Event)
    ensures Handled(members, log, log, {}, e, members)
  {
  }

  lemma HandledNext(members: map<string, State>, log0: seq<Call>, log: seq<Call>, dealt: set<string>, e: Event,
                    was: map<string, State>, user: string)
    requires Handled(members, log0, log, dealt, e, was) && user !in dealt
    ensures user in members ==> members[user] == Before(user, was)
    ensures Handled(members[user := After(user, e, was)], log0, log + CallsFor(user, e, was), dealt + {user}, e, was)
    ensures Handled(members - {user}, log0, log + CallsFor(user, e, was), dealt + {user}, e, was)
  {
    GrownNext(log0, log, dealt, e, was, user);
  }

  lemma HandledAll(s: Snapshot, e: Event, t: Snapshot, dealt: set<string>)
    requires Handled(t.members, s.log, t.log, dealt, e, s.members)
    requires forall u :: u in t.members <==> TrackedAfter(u, e, s.members)
    requires forall u :: u !in dealt ==> TargetOf(u, e, s.members).None?
    requires t.since.Keys == t.members.Keys
    requires forall u :: u in t.since ==> t.since[u] == if u in s.since then s.since[u] else |Worked(s.log, u)|
    ensures Step(s, e, t)
  {
    forall u
      ensures CallsOf(t.log, u) == CallsOf(s.log, u) + CallsFor(u, e, s.members)
    {
      assert u !in dealt ==> CallsFor(u, e, s.members) == [];
    }
    forall u | u in t.members
      ensures t.members[u] == After(u, e, s.members)
    {
      assert u !in dealt ==> After(u, e, s.members) == Before(u, s.members);
    }
  }

  class ProcessMonitor {
    var members: map<string, State>
    var log: seq<Call>
    ghost var since: map<string, nat>

    ghost function View(): Snapshot
      reads this
    {
      Snapshot(members, log, since)
    }

    constructor ()
      ensures View() == Snapshot(map[], [], map[])
    {
      members, log, since := map[], [], map[];
    }

    method ChangeState(s: State, target: State, user: string, outcome: Outcome) returns (r: State)
      modifies this`log
      ensures r == Changed(s, target, outcome)
      ensures log == old(log) + Calls(user, s, target, outcome)
    {
      r := s;
      if s == NotActive && (target == LoginGUI || target == LoginText) {
        var ok := Attempt(user, Enable, outcome);
        if !ok {
          return;
        }
        if target == LoginGUI {
          r := RunningGUI;
        } else {
          r := RunningText;
        }
      } else if (s == RunningText || s == RunningGUI) && target == NotActive {
        var ok := Attempt(user, Stop, outcome);
        if !ok {
          return;
        }
        r := NotActive;
      } else if s == RunningGUI && target == LoginText {
        var ok := Attempt(user, Restart, outcome);
        if !ok {
          return;
        }
        r := RunningText;
      } else if s == RunningText && target == LoginGUI {
        r := RunningGUI;
      }
    }

    /** Looks up the user's ids and calls the service. */
    method Attempt(user: string, action: Action, outcome: Outcome) returns (ok: bool)
      modifies this`log
      ensures ok <==> outcome == Done
      ensures log == old(log) + if outcome == NoIds then [] else [Call(user, action, ok)]
    {
      if outcome == NoIds {
        return false;
      }
      ok := outcome == Done;
      log := log + [Call(user, action, ok)];
    }

    method HandleUTMPFileUpdate(active: Option<map<string, Login>>, outcomes: string -> Outcome) returns (ok: bool)
      requires since.Keys == members.Keys
      modifies this
      ensures ok == active.Some?
      ensures Step(old(View()), if active.Some? then Utmp(active.value, outcomes) else Unreadable, View())
    {
      if active.None? {
        return false;
      }
      ghost var e := Utmp(active.value, outcomes);
      ghost var dealt := VisitMembers(active.value, outcomes, e);
      HandledAll(old(View()), e, View(), dealt);
      return true;
    }

    /** The loop over the tracked users. */
    method VisitMembers(active: map<string, Login>, outcomes: string -> Outcome, ghost e: Event)
      returns (ghost dealt: set<string>)
      requires e == Utmp(active, outcomes)
      modifies this`members, this`log
      ensures members.Keys == old(members).Keys && forall u :: u in old(members) ==> u in dealt
      ensures Handled(members, old(log), log, dealt, e, old(members))
    {
      ghost var was := members;
      dealt := {};
      HandledNone(members, log, e);
      var pending := members.Keys;
      while pending != {}
        invariant members.Keys == was.Keys && forall u :: u in pending ==> u in was
        invariant forall u :: u in dealt <==> u in was && u !in pending
        invariant Handled(members, old(log), log, dealt, e, was)
        decreases pending
      {
        var user :| user in pending;
        Visit(user, active, outcomes, e, was, old(log), dealt);
        pending, dealt := pending - {user}, dealt + {user};
      }
    }

    method Visit(user: string, active: map<string, Login>, outcomes: string -> Outcome, ghost e: Event,
                 ghost was: map<string, State>, ghost log0: seq<Call>, ghost dealt: set<string>)
      requires e == Utmp(active, outcomes) && user in members && user in was && user !in dealt
      requires Handled(members, log0, log, dealt, e, was)
      modifies this`members, this`log
      ensures members.Keys == old(members).Keys && Handled(members, log0, log, dealt + {user}, e, was)
    {
      HandledNext(members, log0, log, dealt, e, was, user);
      VisitIs(user, e, was);
      var target := if user in active then active[user] else NotActive;
      var state := ChangeState(members[user], target, user, outcomes(user));
      members := members[user := state];
    }

    method HandleGroupFileUpdate(names: Option<seq<string>>, active: Option<map<string, Login>>,
                                 outcomes: string -> Outcome)
      returns (ok: bool)
      requires since.Keys == members.Keys
      modifies this
      ensures ok == (names.Some? && active.Some?)
      ensures Step(old(View()), if ok then Group(names.value, active.value, outcomes) else Unreadable, View())
    {
      if names.None? || active.None? {
        return false;
      }
      ghost var e := Group(names.value, active.value, outcomes);
      ghost var added := AddMembers(names.value, active.value, outcomes, e);
      ghost var dealt := RemoveMembers(names.value, outcomes, old(members), old(log), added, e);
      since := map u | u in names.value :: if u in since then since[u] else |Worked(old(log), u)|;
      HandledAll(old(View()), e, View(), dealt);
      return true;
    }

    /** The first loop: names that are not tracked yet. */
    method AddMembers(names: seq<string>, active: map<string, Login>, outcomes: string -> Outcome, ghost e: Event)
      returns (ghost added: set<string>)
      requires e == Group(names, active, outcomes)
      modifies this`members, this`log
      ensures forall u :: u in added <==> u in names && u !in old(members)
      ensures forall u :: u in members <==> u in old(members) || u in names
      ensures Handled(members, old(log), log, added, e, old(members))
    {
      added := {};
      HandledNone(members, log, e);
      for i := 0 to |names|
        invariant forall u :: u in added <==> u in names[..i] && u !in old(members)
        invariant forall u :: u in members <==> u in old(members) || u in names[..i]
        invariant Handled(members, old(log), log, added, e, old(members))
      {
        var name := names[i];
        assert names[..i + 1] == names[..i] + [name];
        if name !in members {
          Welcome(name, active, outcomes, e, old(members), old(log), added);
          added := added + {name};
        }
      }
      assert names[..|names|] == names;
    }

    method Welcome(name: string, active: map<string, Login>, outcomes: string -> Outcome, ghost e: Event,
                   ghost was: map<string, State>, ghost log0: seq<Call>, ghost added: set<string>)
      requires e.Group? && e.active == active && e.outcomes == outcomes && name in e.names
      requires name !in was && name !in added && Handled(members, log0, log, added, e, was)
      modifies this`members, this`log
      ensures members.Keys == old(members).Keys + {name} && Handled(members, log0, log, added + {name}, e, was)
    {
      HandledNext(members, log0, log, added, e, was, name);
      NewcomerIs(name, e, was);
      var state := NotActive;
      if name in active {
        state := ChangeState(state, active[name], name, outcomes(name));
      }
      members := members[name := state];
    }

    /** The second loop: tracked users that are no longer named. */
    method RemoveMembers(names: seq<string>, outcomes: string -> Outcome, ghost was: map<string, State>,
                         ghost log0: seq<Call>, ghost added: set<string>, ghost e: Event)
      returns (ghost dealt: set<string>)
      requires e.Group? && e.names == names && e.outcomes == outcomes
      requires forall u :: u in added <==> u in names && u !in was
      requires forall u :: u in members <==> u in was || u in names
      requires Handled(members, log0, log, added, e, was)
      modifies this`members, this`log
      ensures forall u :: u in members <==> u in names
      ensures forall u :: u in dealt <==> u in added || (u in was && u !in names)
      ensures Handled(members, log0, log, dealt, e, was)
    {
      var pending := members.Keys;
      dealt := added;
      while pending != {}
        invariant forall u :: u in members <==> u in names || u in pending
        invariant forall u :: u in pending ==> u in names || u in was
        invariant forall u :: u in dealt <==> u in added || (u in was && u !in members)
        invariant Handled(members, log0, log, dealt, e, was)
        decreases pending
      {
        var user :| user in pending;
        pending := pending - {user};
        if user !in names {
          HandledNext(members, log0, log, dealt, e, was, user);
          LeaverIs(user, e, was);
          var _ := ChangeState(members[user], NotActive, user, outcomes(user));
          members := members - {user};
          dealt := dealt + {user};
        }
      }
    }
  }

  // ----- whole runs -----

  /** The successful calls of a tracked user since tracking began. */
  function SinceTracked(s: Snapshot, user: string): seq<Action>
    requires user in s.since && s.since[user] <= |Worked(s.log, user)|
  {
    Worked(s.log, user)[s.since[user]..]
  }

  ghost predicate Inv(s: Snapshot) {
    && s.since.Keys == s.members.Keys
    && forall u :: u in s.members ==> s.since[u] <= |Worked(s.log, u)| && Agrees(s.members[u], SinceTracked(s, u))
  }

  lemma UserKeepsInv(s: Snapshot, e: Event, t: Snapshot, u: string)
    requires Inv(s) && Step(s, e, t) && u in t.members
    ensures t.since[u] <= |Worked(t.log, u)| && Agrees(t.members[u], SinceTracked(t, u))
  {
    var done := if u in s.members then SinceTracked(s, u) else [];
    WorkedMore(s, e, t, u);
    DropAppend(Worked(s.log, u), Succeeded(CallsFor(u, e, s.members)), t.since[u]);
    AfterAgrees(u, e, s.members, done);
  }

  lemma DropAppend(a: seq<Action>, b: seq<Action>, k: nat)
    requires k <= |a|
    ensures (a + b)[k..] == a[k..] + b
  {
  }

  lemma WorkedMore(s: Snapshot, e: Event, t: Snapshot, u: string)
    requires Step(s, e, t)
    ensures Worked(t.log, u) == Worked(s.log, u) + Succeeded(CallsFor(u, e, s.members))
  {
    SucceededAppend(CallsOf(s.log, u), CallsFor(u, e, s.members));
  }

  lemma AfterAgrees(u: string, e: Event, members: map<string, State>, done: seq<Action>)
    requires Agrees(Before(u, members), done)
    ensures Agrees(After(u, e, members), done + Succeeded(CallsFor(u, e, members)))
  {
    if TargetOf(u, e, members).Some? {
      ChangeAgrees(Before(u, members), done, u, TargetOf(u, e, members).value, e.outcomes(u));
    } else {
      assert done + Succeeded(CallsFor(u, e, members)) == done;
    }
  }

  lemma StepKeepsInv(s: Snapshot, e: Event, t: Snapshot)
    requires Inv(s) && Step(s, e, t)
    ensures Inv(t)
  {
    forall u | u in t.members
      ensures t.since[u] <= |Worked(t.log, u)| && Agrees(t.members[u], SinceTracked(t, u))
    {
      UserKeepsInv(s, e, t, u);
    }
  }

  ghost predicate Run(events: seq<Event>, states: seq<Snapshot>) {
    && |states| == |events| + 1
    && states[0] == Snapshot(map[], [], map[])
    && forall i :: 0 <= i < |events| ==> Step(states[i], events[i], states[i + 1])
  }

  lemma {:induction false} RunKeepsInv(events: seq<Event>, states: seq<Snapshot>, n: nat)
    requires Run(events, states) && n < |states|
    ensures Inv(states[n])
  {
    if n > 0 {
      RunKeepsInv(events, states, n - 1);
      StepKeepsInv(states[n - 1], events[n - 1], states[n]);
    }
  }

  /** In every run, with any failures and any order of visiting, a tracked user is inactive or running, and
      the calls that worked since tracking began are complete sessions, then an open one iff it is running. */
  lemma TrackedSessions(events: seq<Event>, states: seq<Snapshot>, n: nat, u: string)
    requires Run(events, states) && n < |states| && u in states[n].members
    ensures states[n].members[u] in {NotActive, RunningGUI, RunningText}
    ensures u in states[n].since && states[n].since[u] <= |Worked(states[n].log, u)|
    ensures states[n].members[u] == NotActive <==> Complete(SinceTracked(states[n], u))
    ensures states[n].members[u] != NotActive <==> Running(SinceTracked(states[n], u))
  {
    var s := states[n];
    assert u in s.since && s.since[u] <= |Worked(s.log, u)| && InPhase(s.members[u], PhaseOf(SinceTracked(s, u))) by {
      RunKeepsInv(events, states, n);
    }
    PhaseIsLanguage(SinceTracked(s, u));
  }

  /** What the service must have done for a tracked user to come from one state to another. */
  function Explained(before: State, after: State): seq<Action> {
    match (before, after)
    case (NotActive, RunningGUI) => [Enable]
    case (NotActive, RunningText) => [Enable]
    case (RunningGUI, NotActive) => [Stop]
    case (RunningText, NotActive) => [Stop]
    case (RunningGUI, RunningText) => [Restart]
    case _ => []
  }

  /** In every run each event adds exactly the successful calls that explain a user's change of state: the tray
      is restored by a restart whenever the last graphical session goes, and by nothing else. */
  lemma CallsExplained(events: seq<Event>, states: seq<Snapshot>, n: nat, u: string)
    requires Run(events, states) && n < |events| && u in states[n + 1].members
    ensures Worked(states[n + 1].log, u) ==
            Worked(states[n].log, u) + Explained(Before(u, states[n].members), states[n + 1].members[u])
  {
    RunKeepsInv(events, states, n);
    StepExplained(states[n], events[n], states[n + 1], u);
  }

  lemma StepExplained(s: Snapshot, e: Event, t: Snapshot, u: string)
    requires Inv(s) && Step(s, e, t) && u in t.members
    ensures Worked(t.log, u) == Worked(s.log, u) + Explained(Before(u, s.members), t.members[u])
  {
    var before := Before(u, s.members);
    assert before in {NotActive, RunningGUI, RunningText} by {
      BeforeSettled(s, u);
    }
    assert t.members[u] == After(u, e, s.members);
    assert Succeeded(CallsFor(u, e, s.members)) == Explained(before, After(u, e, s.members)) by {
      AfterExplained(u, e, s.members);
    }
    assert Worked(t.log, u) == Worked(s.log, u) + Succeeded(CallsFor(u, e, s.members)) by {
      WorkedMore(s, e, t, u);
    }
  }

  lemma BeforeSettled(s: Snapshot, u: string)
    requires Inv(s)
    ensures Before(u, s.members) in {NotActive, RunningGUI, RunningText}
  {
  }

  lemma AfterExplained(u: string, e: Event, members: map<string, State>)
    requires Before(u, members) in {NotActive, RunningGUI, RunningText}
    ensures Succeeded(CallsFor(u, e, members)) == Explained(Before(u, members), After(u, e, members))
  {
    var target := TargetOf(u, e, members);
    if target.Some? {
      SucceededCalls(u, Before(u, members), target.value, e.outcomes(u));
      ChangeExplained(Before(u, members), target.value, e.outcomes(u));
    }
  }

  lemma ChangeExplained(s: State, target: State, outcome: Outcome)
    requires s in {NotActive, RunningGUI, RunningText} && target in {NotActive, LoginGUI, LoginText}
    ensures (if outcome == Done then Needed(s, target) else []) == Explained(s, Changed(s, target, outcome))
  {
  }

  // ----- reaching the target -----

  ghost predicate Settled(s: Snapshot) {
    forall u :: u in s.members ==> s.members[u] in {NotActive, RunningGUI, RunningText}
  }

  /** After a read of the logins a user is in the state they ask for iff no call was needed or it worked. */
  lemma UtmpReachesIff(s: Snapshot, e: Event, t: Snapshot, u: string)
    requires Settled(s) && e.Utmp? && Step(s, e, t) && u in s.members
    ensures u in t.members
    ensures t.members[u] == Goal(Target(u, e.active)) <==>
            Needed(s.members[u], Target(u, e.active)) == [] || e.outcomes(u) == Done
  {
  }

  lemma CallsFirst(log: seq<Call>)
    requires log != []
    ensures CallsOf(log, log[0].user) != []
  {
    assert log == [log[0]] + log[1..];
    CallsOfAppend([log[0]], log[1..], log[0].user);
    assert CallsOf([log[0]], log[0].user) == CallsOf([], log[0].user) + [log[0]];
  }

  lemma LongerShows(s: seq<Call>, t: seq<Call>)
    requires s < t
    ensures exists u :: CallsOf(t, u) != CallsOf(s, u)
  {
    var more := t[|s|..];
    var u := more[0].user;
    assert t == s + more;
    CallsOfAppend(s, more, u);
    CallsFirst(more);
    assert |CallsOf(t, u)| > |CallsOf(s, u)|;
  }

  lemma LogSame(s: seq<Call>, t: seq<Call>)
    requires s <= t && forall u :: CallsOf(t, u) == CallsOf(s, u)
    ensures s == t
  {
    if s < t {
      LongerShows(s, t);
    }
  }

  /** Every tracked user is in the state that the logins ask for. */
  ghost predicate AtGoal(s: Snapshot, active: map<string, Login>) {
    forall u :: u in s.members ==> s.members[u] == Goal(Target(u, active))
  }

  lemma AllReach(s: Snapshot, e: Event, t: Snapshot)
    requires Settled(s) && e.Utmp? && (forall u :: e.outcomes(u) == Done) && Step(s, e, t)
    ensures t.members.Keys == s.members.Keys && AtGoal(t, e.active)
  {
    forall u | u in t.members
      ensures t.members[u] == Goal(Target(u, e.active))
    {
      UtmpReachesIff(s, e, t, u);
    }
  }

  lemma NothingLeft(u: string, e: Event, members: map<string, State>)
    requires e.Utmp? && (u in members ==> members[u] == Goal(Target(u, e.active)))
    ensures CallsFor(u, e, members) == [] && (u in members ==> After(u, e, members) == members[u])
  {
  }

  lemma GoalIsStable(s: Snapshot, e: Event, t: Snapshot)
    requires e.Utmp? && AtGoal(s, e.active) && s.since.Keys == s.members.Keys && Step(s, e, t)
    ensures t == s
  {
    forall u
      ensures CallsOf(t.log, u) == CallsOf(s.log, u) && (u in s.members ==> After(u, e, s.members) == s.members[u])
    {
      NothingLeft(u, e, s.members);
    }
    LogSame(s.log, t.log);
    assert t.members == s.members && t.since == s.since;
  }

  /** When every call works, one read of the logins brings every tracked user to exactly the state asked
      for, and reading the same logins again changes nothing and calls nothing, whatever would fail. */
  lemma UtmpIdempotent(s: Snapshot, e: Event, t: Snapshot, again: Event, v: Snapshot)
    requires Settled(s) && e.Utmp? && (forall u :: e.outcomes(u) == Done) && Step(s, e, t)
    requires again.Utmp? && again.active == e.active && Step(t, again, v)
    ensures t.members.Keys == s.members.Keys
    ensures forall u :: u in t.members ==> t.members[u] == Goal(Target(u, e.active))
    ensures v == t
  {
    AllReach(s, e, t);
    GoalIsStable(t, again, v);
  }

  /** The order of visits does not show: equal outcomes give equal states and, for each user, equal calls. */
  lemma OrderIrrelevant(s: Snapshot, e: Event, t: Snapshot, v: Snapshot)
    requires Step(s, e, t) && Step(s, e, v)
    ensures t.members == v.members && t.since == v.since
    ensures forall u :: CallsOf(t.log, u) == CallsOf(v.log, u)
  {
  }

  /** A user who leaves the group while the service refuses to stop is dropped although still running. */
  lemma LeftRunning(s: Snapshot, e: Event, t: Snapshot, u: string)
    requires Inv(s) && e.Group? && Step(s, e, t) && u in s.members && u !in e.names
    ensures u !in t.members && s.since[u] <= |Worked(t.log, u)|
    ensures PhaseOf(Worked(t.log, u)[s.since[u]..]) == Open <==> s.members[u] != NotActive && e.outcomes(u) != Done
  {
    WorkedMore(s, e, t, u);
    LeaverPhase(u, e, s.members, Worked(s.log, u), s.since[u]);
  }

  lemma LeaverPhase(u: string, e: Event, members: map<string, State>, worked: seq<Action>, since: nat)
    requires e.Group? && u in members && u !in e.names && since <= |worked| && Agrees(members[u], worked[since..])
    ensures PhaseOf((worked + Succeeded(CallsFor(u, e, members)))[since..]) == Open <==>
            members[u] != NotActive && e.outcomes(u) != Done
  {
    DropAppend(worked, Succeeded(CallsFor(u, e, members)), since);
    AfterAgrees(u, e, members, worked[since..]);
    LeaverAfter(u, e, members);
  }

  lemma LeaverAfter(u: string, e: Event, members: map<string, State>)
    requires e.Group? && u in members && u !in e.names && members[u] in {NotActive, RunningGUI, RunningText}
    ensures After(u, e, members) != NotActive <==> members[u] != NotActive && e.outcomes(u) != Done
  {
  }

  /** The user joins, leaves while the service refuses to stop, and joins again, logged in all the time. */
  function JoinLeaveJoin(u: string): seq<Event> {
    var active: map<string, Login> := map[u := LoginGUI];
    [Group([u], active, (_: string) => Done), Group([], active, (_: string) => Refused),
     Group([u], active, (_: string) => Done)]
  }

  /** Then a second session is started on top of the first: two calls of Enable worked and none of Stop. */
  lemma EnabledTwice(u: string, states: seq<Snapshot>)
    requires Run(JoinLeaveJoin(u), states)
    ensures Worked(states[3].log, u) == [Enable, Enable] && PhaseOf(Worked(states[3].log, u)) == Broken
  {
    var events := JoinLeaveJoin(u);
    assert Step(states[0], events[0], states[1]) && Step(states[1], events[1], states[2]);
    assert Step(states[2], events[2], states[3]);
    StepsEnableTwice(states[0], events[0], states[1], events[1], states[2], events[2], states[3], u);
  }

  /** The user u joins, logged in with a desktop, and the service starts. */
  ghost predicate Joins(e: Event, u: string) {
    e.Group? && u in e.names && u in e.active && e.active[u] == LoginGUI && e.outcomes(u) == Done
  }

  lemma StepsEnableTwice(s: Snapshot, e: Event, t: Snapshot, f: Event, v: Snapshot, g: Event, w: Snapshot, u: string)
    requires s.log == [] && u !in s.members && Step(s, e, t) && Step(t, f, v) && Step(v, g, w)
    requires Joins(e, u) && Joins(g, u) && f.Group? && u !in f.names && f.outcomes(u) == Refused
    ensures Worked(w.log, u) == [Enable, Enable] && PhaseOf(Worked(w.log, u)) == Broken
  {
    JoinWorks(s, e, t, u);
    LeaveFails(t, f, v, u);
    JoinWorks(v, g, w, u);
    assert Worked(t.log, u) == [] + [Enable] == [Enable];
    PhaseAppend([], Enable);
    PhaseAppend([Enable], Enable);
  }

  lemma JoinWorks(s: Snapshot, e: Event, t: Snapshot, u: string)
    requires Step(s, e, t) && u !in s.members && Joins(e, u)
    ensures u in t.members && t.members[u] == RunningGUI && Worked(t.log, u) == Worked(s.log, u) + [Enable]
  {
    WorkedMore(s, e, t, u);
    NewcomerIs(u, e, s.members);
    SucceededCalls(u, NotActive, LoginGUI, Done);
  }

  lemma LeaveFails(s: Snapshot, e: Event, t: Snapshot, u: string)
    requires e.Group? && Step(s, e, t) && u in s.members && u !in e.names && e.outcomes(u) == Refused
    ensures u !in t.members && Worked(t.log, u) == Worked(s.log, u)
  {
    WorkedMore(s, e, t, u);
    LeaverIs(u, e, s.members);
    SucceededCalls(u, s.members[u], NotActive, Refused);
  }

  // ----- what an event asks of the service -----

  /** One attempt: without ids there is no call. */
  function Attempted(u: string, action: Action, outcome: Outcome): seq<Call> {
    if outcome == NoIds then [] else [Call(u, action, outcome == Done)]
  }

  /** The calls that a user's login asks for: enabling on login, stopping on logout, and a restart only on the way from
      a graphical to a text login. */
  function LoginCalls(u: string, was: State, active: map<string, Login>, outcome: Outcome): seq<Call> {
    if was == NotActive then if u in active then Attempted(u, Enable, outcome) else []
    else if u !in active then Attempted(u, Stop, outcome)
    else if was == RunningGUI && active[u] == LoginText then Attempted(u, Restart, outcome)
    else []
  }

  /** A login table makes the calls that the logins of the tracked users ask for; a group file those of its new members,
      and it stops the members that left and run. */
  function EventCalls(u: string, e: Event, members: map<string, State>): seq<Call> {
    match e
    case Unreadable => []
    case Utmp(active, outcomes) => if u in members then LoginCalls(u, members[u], active, outcomes(u)) else []
    case Group(names, active, outcomes) =>
      if u !in members then if u in names then LoginCalls(u, NotActive, active, outcomes(u)) else []
      else if u !in names && members[u] != NotActive then Attempted(u, Stop, outcomes(u))
      else []
  }

  lemma CallsMade(s: Snapshot, e: Event, t: Snapshot, u: string)
    requires Step(s, e, t) && (u in s.members ==> s.members[u] in {NotActive, RunningGUI, RunningText})
    ensures CallsOf(t.log, u) == CallsOf(s.log, u) + EventCalls(u, e, s.members)
  {
    EventCallsAre(u, e, s.members);
  }

  lemma EventCallsAre(u: string, e: Event, members: map<string, State>)
    requires u in members ==> members[u] in {NotActive, RunningGUI, RunningText}
    ensures CallsFor(u, e, members) == EventCalls(u, e, members)
  {
  }
}
