/**
 The API client's shared refresh: requests that come back 401 wait for one refresh attempt,
 then retry once. Every step is one synchronous stretch of the event loop between awaits;
 responses and continuations arrive in any order.
 */
module SingleFlight {
  import opened Wrappers
  import Runs

  type RequestId = nat
  type CallId = nat

  datatype Verdict = Refreshed | NotRefreshed | Threw

  /** A request is on the network, awaiting the shared refresh, or finished (with 2xx or not). */
  datatype Phase = Fetching | Waiting(call: CallId) | Done(ok: bool)

  datatype Request = Request(authRoute: bool, retried: bool, fetches: nat, phase: Phase)

  /**
   A call of the registered handler: it runs until its own `/auth/refresh` request (if it
   makes one) is done; then its promise settles; then `finally` clears the shared slot.
   */
  datatype Call =
    | Running(refresh: Option<RequestId>)
    | Settled(verdict: Verdict)
    | Cleared(verdict: Verdict)

  datatype State = State(handler: bool, inFlight: Option<CallId>, requests: seq<Request>, calls: seq<Call>)

  datatype Action =
    | SetHandler(present: bool)
    | Start(authRoute: bool)
    | Respond401(r: RequestId, signedIn: bool)
    | Respond(r: RequestId, ok: bool)
    | Settle(c: CallId, verdict: Verdict)
    | Clear(c: CallId)
    | Resume(r: RequestId)

  predicate Enabled(s: State, a: Action) {
    match a
    case SetHandler(_) => true
    case Start(_) => true
    case Respond401(r, _) => r < |s.requests| && s.requests[r].phase == Fetching
    case Respond(r, _) => r < |s.requests| && s.requests[r].phase == Fetching
    case Settle(c, verdict) =>
      && c < |s.calls| && s.calls[c].Running?
      && (match s.calls[c].refresh
          case None => verdict == NotRefreshed
          case Some(q) =>
            && q < |s.requests| && s.requests[q].phase.Done?
            && (verdict == Refreshed ==> s.requests[q].phase.ok))
    case Clear(c) => c < |s.calls| && s.calls[c].Settled?
    case Resume(r) =>
      && r < |s.requests| && s.requests[r].phase.Waiting?
      && s.requests[r].phase.call < |s.calls| && s.calls[s.requests[r].phase.call].Cleared?
  }

  function NewRequest(authRoute: bool): Request {
    Request(authRoute, false, 1, Fetching)
  }

  /** The handler's synchronous start: it sends `/auth/refresh` at once, unless signed out. */
  function StartCall(s: State, signedIn: bool): State {
    if signedIn
    then s.(inFlight := Some(|s.calls|), calls := s.calls + [Running(Some(|s.requests|))],
            requests := s.requests + [NewRequest(true)])
    else s.(inFlight := Some(|s.calls|), calls := s.calls + [Running(None)])
  }

  function WithPhase(s: State, r: RequestId, phase: Phase): State
    requires r < |s.requests|
  {
    s.(requests := s.requests[r := s.requests[r].(phase := phase)])
  }

  function Next(s: State, a: Action): State
    requires Enabled(s, a)
  {
    match a
    case SetHandler(present) => s.(handler := present)
    case Start(authRoute) => s.(requests := s.requests + [NewRequest(authRoute)])
    case Respond401(r, signedIn) =>
      if s.requests[r].retried || s.requests[r].authRoute || !s.handler then WithPhase(s, r, Done(false))
      else
        var s1 := if s.inFlight.None? then StartCall(s, signedIn) else s;
        WithPhase(s1, r, Waiting(s1.inFlight.value))
    case Respond(r, ok) => WithPhase(s, r, Done(ok))
    case Settle(c, verdict) => s.(calls := s.calls[c := Settled(verdict)])
    case Clear(c) => s.(calls := s.calls[c := Cleared(s.calls[c].verdict)], inFlight := None)
    case Resume(r) =>
      var q := s.requests[r];
      if s.calls[q.phase.call].verdict == Refreshed
      then s.(requests := s.requests[r := Request(q.authRoute, true, q.fetches + 1, Fetching)])
      else WithPhase(s, r, Done(false))
  }

  /** The module's variables and the continuations the event loop holds for it. */
  class ApiClient {
    var onUnauthorized: bool
    var refreshInFlight: Option<CallId>
    var requests: seq<Request>
    var calls: seq<Call>

    constructor ()
      ensures Snapshot() == State(false, None, [], [])
    {
      onUnauthorized, refreshInFlight, requests, calls := false, None, [], [];
    }

    ghost function Snapshot(): State
      reads this
    {
      State(onUnauthorized, refreshInFlight, requests, calls)
    }

    method Send(authRoute: bool) returns (r: RequestId)
      modifies this
      ensures Snapshot() == Next(old(Snapshot()), Start(authRoute)) && r == |old(requests)|
    {
      r := |requests|;
      requests := requests + [Request(authRoute, false, 1, Fetching)];
    }

    /** Joins the refresh in flight, starting one if there is none; nothing to join without a handler. */
    method TryRefresh(signedIn: bool) returns (joined: Option<CallId>)
      modifies this
      ensures joined.None? <==> !old(onUnauthorized)
      ensures joined.Some? ==> refreshInFlight == joined
      ensures Snapshot() == if old(onUnauthorized) && old(refreshInFlight).None?
              then StartCall(old(Snapshot()), signedIn) else old(Snapshot())
    {
      if !onUnauthorized {
        return None;
      }
      if refreshInFlight == None {
        var c := |calls|;
        if signedIn {
          var q := Send(true);
          calls := calls + [Running(Some(q))];
        } else {
          calls := calls + [Running(None)];
        }
        refreshInFlight := Some(c);
      }
      return refreshInFlight;
    }

    /** A response has arrived for request `r`. */
    method OnResponse(r: RequestId, status: int, signedIn: bool)
      requires r < |requests| && requests[r].phase == Fetching
      modifies this
      ensures Snapshot() ==
              Next(old(Snapshot()), if status == 401 then Respond401(r, signedIn) else Respond(r, 200 <= status < 300))
    {
      if status == 401 && !requests[r].retried && !requests[r].authRoute {
        var joined := TryRefresh(signedIn);
        if joined.Some? {
          requests := requests[r := requests[r].(phase := Waiting(joined.value))];
          return;
        }
      }
      requests := requests[r := requests[r].(phase := Done(200 <= status < 300))];
    }

    /** The handler's promise has settled and its `finally` callback runs. */
    method OnFinally(c: CallId)
      requires c < |calls| && calls[c].Settled?
      modifies this
      ensures Snapshot() == Next(old(Snapshot()), Clear(c))
    {
      calls := calls[c := Cleared(calls[c].verdict)];
      refreshInFlight := None;
    }

    /** A request awaiting the refresh goes on: one retry, or the 401 is reported. */
    method OnRefreshed(r: RequestId)
      requires Enabled(Snapshot(), Resume(r))
      modifies this
      ensures Snapshot() == Next(old(Snapshot()), Resume(r))
    {
      var q := requests[r];
      if calls[q.phase.call].verdict == Refreshed {
        requests := requests[r := Request(q.authRoute, true, q.fetches + 1, Fetching)];
      } else {
        requests := requests[r := q.(phase := Done(false))];
      }
    }
  }

  // ---- Every interleaving -----------------------------------------------------------

  predicate Step(s: State, a: Action, s': State) {
    Enabled(s, a) && s' == Next(s, a)
  }

  ghost predicate IsRun(states: seq<State>, actions: seq<Action>) {
    Runs.IsRun(Step, states, actions)
  }

  predicate Initial(s: State) {
    s.inFlight == None && s.requests == [] && s.calls == []
  }

  predicate RequestOk(s: State, q: Request) {
    && q.fetches == (if q.retried then 2 else 1)
    && (q.phase.Waiting? ==> !q.authRoute && !q.retried && q.phase.call < |s.calls|)
  }

  predicate CallOk(s: State, c: CallId)
    requires c < |s.calls|
  {
    && (!s.calls[c].Cleared? <==> s.inFlight == Some(c))
    && (s.calls[c].Running? && s.calls[c].refresh.Some? ==>
          s.calls[c].refresh.value < |s.requests| && s.requests[s.calls[c].refresh.value].authRoute)
  }

  predicate Inv(s: State) {
    && (s.inFlight.Some? ==> s.inFlight.value < |s.calls|)
    && (forall i :: 0 <= i < |s.requests| ==> RequestOk(s, s.requests[i]))
    && (forall c :: 0 <= c < |s.calls| ==> CallOk(s, c))
  }

  lemma StepKeepsInv(s: State, a: Action)
    requires Inv(s) && Enabled(s, a)
    ensures Inv(Next(s, a))
  {
    var s' := Next(s, a);
    forall c | 0 <= c < |s'.calls| ensures CallOk(s', c) {
      assert c < |s.calls| ==> CallOk(s, c);
      assert a.Clear? ==> CallOk(s, a.c);
    }
    forall i | 0 <= i < |s'.requests| ensures RequestOk(s', s'.requests[i]) {
      assert i < |s.requests| ==> RequestOk(s, s.requests[i]);
    }
  }

  lemma RunKeepsInv(states: seq<State>, actions: seq<Action>, n: nat)
    requires IsRun(states, actions) && Initial(states[0]) && n < |states|
    ensures Inv(states[n])
  {
    forall s, a, s' | Inv(s) && Step(s, a, s') ensures Inv(s') {
      StepKeepsInv(s, a);
    }
    Runs.Invariant(Step, Inv, states, actions, 0, n);
  }

  /** At most one handler call is outstanding, in any interleaving. */
  lemma OneRefreshAtATime(states: seq<State>, actions: seq<Action>, n: nat, c: CallId, c': CallId)
    requires IsRun(states, actions) && Initial(states[0]) && n < |states|
    requires c < |states[n].calls| && c' < |states[n].calls| && states[n].calls[c].Running?
             && states[n].calls[c'].Running?
    ensures c == c' && states[n].inFlight == Some(c)
  {
    RunKeepsInv(states, actions, n);
    assert CallOk(states[n], c) && CallOk(states[n], c');
  }

  /** No request does more than two fetches, and one on an `/auth/` route never waits or retries. */
  lemma AtMostTwoFetches(states: seq<State>, actions: seq<Action>, n: nat, r: RequestId)
    requires IsRun(states, actions) && Initial(states[0]) && n < |states| && r < |states[n].requests|
    ensures states[n].requests[r].fetches <= 2
    ensures states[n].requests[r].authRoute ==> !states[n].requests[r].phase.Waiting?
  {
    RunKeepsInv(states, actions, n);
    assert RequestOk(states[n], states[n].requests[r]);
  }

  /** Once settled, a call's verdict is fixed; once waiting, a request waits for the same call until it resumes. */
  predicate Keeps(s: State, s': State) {
    && |s.calls| <= |s'.calls|
    && forall c :: 0 <= c < |s.calls| ==>
         && (s.calls[c].Cleared? ==> s'.calls[c] == s.calls[c])
         && (s.calls[c].Settled? ==> !s'.calls[c].Running? && s'.calls[c].verdict == s.calls[c].verdict)
  }

  lemma {:induction false} VerdictsAreFinal(states: seq<State>, actions: seq<Action>, from: nat, to: nat)
    requires IsRun(states, actions) && from <= to < |states|
    ensures Keeps(states[from], states[to])
  {
    if from < to {
      VerdictsAreFinal(states, actions, from, to - 1);
      assert Step(states[to - 1], actions[to - 1], states[to]);
    }
  }

  /**
   Two requests that wait for the same call share its result: whenever each of them resumes,
   both retry or neither does.
   */
  lemma WaitersShareTheResult(states: seq<State>, actions: seq<Action>, i: nat, j: nat)
    requires IsRun(states, actions) && i < j < |actions| && actions[i].Resume? && actions[j].Resume?
    requires actions[i].r < |states[i].requests| && actions[j].r < |states[j].requests|
    requires states[i].requests[actions[i].r].phase.Waiting?
    requires states[j].requests[actions[j].r].phase == states[i].requests[actions[i].r].phase
    ensures actions[i].r < |states[i + 1].requests| && actions[j].r < |states[j + 1].requests|
    ensures states[i + 1].requests[actions[i].r].phase == states[j + 1].requests[actions[j].r].phase
  {
    assert Step(states[i], actions[i], states[i + 1]);
    assert Step(states[j], actions[j], states[j + 1]);
    VerdictsAreFinal(states, actions, i, j);
  }

  /** A 401 that arrives while a refresh is in flight joins it: no second handler call is made. */
  lemma LateComersJoin(states: seq<State>, actions: seq<Action>, n: nat)
    requires IsRun(states, actions) && Initial(states[0]) && n < |actions| && actions[n].Respond401?
    ensures actions[n].r < |states[n].requests| && actions[n].r < |states[n + 1].requests|
    ensures var s, s', q := states[n], states[n + 1], states[n].requests[actions[n].r];
            var joins := s.handler && !q.retried && !q.authRoute;
            && (s'.requests[actions[n].r].phase.Waiting? <==> joins)
            && (joins && s.inFlight.Some? ==>
                  s'.calls == s.calls && s'.requests[actions[n].r].phase.call == s.inFlight.value)
            && (joins && s.inFlight.None? ==>
                  |s'.calls| == |s.calls| + 1 && s'.requests[actions[n].r].phase.call == |s.calls|)
            && (joins && s.inFlight.None? ==>
                  if actions[n].signedIn
                  then
                    && |s'.requests| == |s.requests| + 1
                    && s'.requests[|s.requests|] == Request(true, false, 1, Fetching)
                    && s'.calls[|s.calls|] == Running(Some(|s.requests|))
                  else |s'.requests| == |s.requests| && s'.calls[|s.calls|] == Running(None))
  {
  }

  /** A call in flight stays the one in flight until it is cleared. */
  lemma {:induction false} InFlightStays(states: seq<State>, actions: seq<Action>, from: nat, to: nat, c: CallId)
    requires IsRun(states, actions) && from <= to < |states| && states[from].inFlight == Some(c)
    requires forall i :: from <= i < to ==> !actions[i].Clear?
    ensures states[to].inFlight == Some(c)
  {
    if from < to {
      InFlightStays(states, actions, from, to - 1, c);
      assert Step(states[to - 1], actions[to - 1], states[to]);
    }
  }

  /** All the 401s that come to wait between two clears wait for one and the same call. */
  lemma BurstSharesOneCall(states: seq<State>, actions: seq<Action>, i: nat, j: nat)
    requires IsRun(states, actions) && Initial(states[0]) && i < j < |actions|
    requires actions[i].Respond401? && actions[j].Respond401? && forall k :: i <= k < j ==> !actions[k].Clear?
    requires actions[i].r < |states[i + 1].requests| && states[i + 1].requests[actions[i].r].phase.Waiting?
    requires actions[j].r < |states[j + 1].requests| && states[j + 1].requests[actions[j].r].phase.Waiting?
    ensures states[j + 1].requests[actions[j].r].phase == states[i + 1].requests[actions[i].r].phase
  {
    LateComersJoin(states, actions, i);
    LateComersJoin(states, actions, j);
    assert Step(states[i], actions[i], states[i + 1]);
    InFlightStays(states, actions, i + 1, j, states[i + 1].requests[actions[i].r].phase.call);
  }

  function Clears(actions: seq<Action>): nat {
    if actions == [] then 0 else Clears(actions[..|actions| - 1]) + if actions[|actions| - 1].Clear? then 1 else 0
  }

  /**
   Handler calls are conserved: in every run there have been exactly as many as were cleared, and
   one more while one is in flight. So between two clears the handler is called at most once,
   however many requests come back 401.
   */
  lemma {:induction false} CallsMatchClears(states: seq<State>, actions: seq<Action>, n: nat)
    requires IsRun(states, actions) && Initial(states[0]) && n < |states|
    ensures |states[n].calls| == Clears(actions[..n]) + if states[n].inFlight.Some? then 1 else 0
  {
    if n > 0 {
      CallsMatchClears(states, actions, n - 1);
      RunKeepsInv(states, actions, n - 1);
      assert Step(states[n - 1], actions[n - 1], states[n]);
      assert actions[..n][..n - 1] == actions[..n - 1];
      var a := actions[n - 1];
      assert a.Clear? ==> CallOk(states[n - 1], a.c);
    }
  }

  /**
   No circular wait: whatever a request is waiting for can move. Its refresh is over and the
   request can resume; or the refresh can settle or clear; or the refresh's own request is
   on the network, and being on an `/auth/` route it waits for no refresh itself.
   */
  lemma WaitingCanProgress(states: seq<State>, actions: seq<Action>, n: nat, r: RequestId)
    requires IsRun(states, actions) && Initial(states[0]) && n < |states|
    requires r < |states[n].requests| && states[n].requests[r].phase.Waiting?
    ensures var s := states[n];
            var c := s.requests[r].phase.call;
            && c < |s.calls|
            && match s.calls[c]
               case Cleared(_) => Enabled(s, Resume(r))
               case Settled(_) => Enabled(s, Clear(c))
               case Running(None) => Enabled(s, Settle(c, NotRefreshed))
               case Running(Some(q)) =>
                 && q < |s.requests| && s.requests[q].authRoute
                 && (s.requests[q].phase == Fetching || Enabled(s, Settle(c, NotRefreshed)))
  {
    RunKeepsInv(states, actions, n);
    var s := states[n];
    assert RequestOk(s, s.requests[r]);
    var c := s.requests[r].phase.call;
    assert CallOk(s, c);
    if s.calls[c].Running? && s.calls[c].refresh.Some? {
      assert RequestOk(s, s.requests[s.calls[c].refresh.value]);
    }
  }

  // ---- What a request comes to -----------------------------------------------------

  /** A call that has settled did so by a step, with the verdict it has. */
  lemma {:induction false} VerdictWasSettled(states: seq<State>, actions: seq<Action>, n: nat, c: CallId)
    returns (k: nat)
    requires IsRun(states, actions) && Initial(states[0]) && n < |states|
    requires c < |states[n].calls| && !states[n].calls[c].Running?
    ensures k < n && actions[k] == Settle(c, states[n].calls[c].verdict)
  {
    var s, s' := states[n - 1], states[n];
    assert Step(s, actions[n - 1], s');
    if actions[n - 1].Settle? && actions[n - 1].c == c {
      k := n - 1;
    } else {
      k := VerdictWasSettled(states, actions, n - 1, c);
    }
  }

  /**
   In every run, a request that waited resumes as the refresh it waited for settled: if with
   success, it is fetched once more, as a retry; if not, it ends as failed without another fetch.
   */
  lemma RetriesExactlyIfRefreshed(states: seq<State>, actions: seq<Action>, n: nat, k: nat)
    requires IsRun(states, actions) && Initial(states[0]) && k < n < |actions| && actions[n].Resume?
             && actions[k].Settle?
    requires actions[n].r < |states[n].requests| && states[n].requests[actions[n].r].phase == Waiting(actions[k].c)
    ensures actions[n].r < |states[n + 1].requests|
    ensures var q, q' := states[n].requests[actions[n].r], states[n + 1].requests[actions[n].r];
            if actions[k].verdict == Refreshed
            then q'.phase == Fetching && q'.retried && q'.fetches == q.fetches + 1 && q'.authRoute == q.authRoute
            else q'.phase == Done(false) && q'.fetches == q.fetches
  {
    assert Step(states[k], actions[k], states[k + 1]);
    assert Step(states[n], actions[n], states[n + 1]);
    VerdictsAreFinal(states, actions, k + 1, n);
  }

  /** Such a settling there always is: whoever resumes was waiting for a call that settled before. */
  lemma ResumesAfterSettling(states: seq<State>, actions: seq<Action>, n: nat) returns (k: nat)
    requires IsRun(states, actions) && Initial(states[0]) && n < |actions| && actions[n].Resume?
    ensures actions[n].r < |states[n].requests| && k < n && actions[k].Settle?
    ensures states[n].requests[actions[n].r].phase == Waiting(actions[k].c)
  {
    assert Step(states[n], actions[n], states[n + 1]);
    k := VerdictWasSettled(states, actions, n, states[n].requests[actions[n].r].phase.call);
  }

  /** A request succeeds only by an answer that says so, and fails only by an answer or a failed refresh. */
  lemma {:induction false} OutcomeWasAnswered(states: seq<State>, actions: seq<Action>, n: nat, r: RequestId)
    returns (k: nat)
    requires IsRun(states, actions) && Initial(states[0]) && n < |states| && r < |states[n].requests|
    requires states[n].requests[r].phase.Done?
    ensures k < n
    ensures states[n].requests[r].phase.ok ==> actions[k] == Respond(r, true)
    ensures !states[n].requests[r].phase.ok ==>
              actions[k] == Respond(r, false) || (actions[k].Respond401? && actions[k].r == r) || actions[k] == Resume(r)
  {
    var s, s' := states[n - 1], states[n];
    assert Step(s, actions[n - 1], s');
    if r < |s.requests| && s.requests[r].phase == s'.requests[r].phase {
      k := OutcomeWasAnswered(states, actions, n - 1, r);
    } else {
      k := n - 1;
    }
  }

  // ---- Everything ends -------------------------------------------------------------

  function RequestWork(q: Request): nat {
    match q.phase
    case Done(_) => 0
    case Waiting(_) => 2
    case Fetching => if q.authRoute || q.retried then 1 else 6
  }

  function CallWork(c: Call): nat {
    match c
    case Running(_) => 2
    case Settled(_) => 1
    case Cleared(_) => 0
  }

  function RequestsWork(qs: seq<Request>): nat {
    if qs == [] then 0 else RequestsWork(qs[..|qs| - 1]) + RequestWork(qs[|qs| - 1])
  }

  function CallsWork(cs: seq<Call>): nat {
    if cs == [] then 0 else CallsWork(cs[..|cs| - 1]) + CallWork(cs[|cs| - 1])
  }

  lemma {:induction false} RequestsWorkUpdate(qs: seq<Request>, i: nat, q: Request)
    requires i < |qs|
    ensures RequestsWork(qs[i := q]) == RequestsWork(qs) - RequestWork(qs[i]) + RequestWork(q)
  {
    var n := |qs| - 1;
    if i < n {
      RequestsWorkUpdate(qs[..n], i, q);
      assert qs[i := q][..n] == qs[..n][i := q];
    } else {
      assert qs[i := q][..n] == qs[..n];
    }
  }

  lemma {:induction false} CallsWorkUpdate(cs: seq<Call>, i: nat, c: Call)
    requires i < |cs|
    ensures CallsWork(cs[i := c]) == CallsWork(cs) - CallWork(cs[i]) + CallWork(c)
  {
    var n := |cs| - 1;
    if i < n {
      CallsWorkUpdate(cs[..n], i, c);
      assert cs[i := c][..n] == cs[..n][i := c];
    } else {
      assert cs[i := c][..n] == cs[..n];
    }
  }

  function Work(s: State): nat {
    RequestsWork(s.requests) + CallsWork(s.calls)
  }

  /** Steps that are not the application's own doing. */
  predicate IsLoopStep(a: Action) {
    !a.Start? && !a.SetHandler?
  }

  lemma WorkDecreases(s: State, a: Action)
    requires Inv(s) && Enabled(s, a) && IsLoopStep(a)
    ensures Work(Next(s, a)) < Work(s)
  {
    match a {
      case Respond401(r, signedIn) =>
        assert RequestOk(s, s.requests[r]);
        if s.requests[r].retried || s.requests[r].authRoute || !s.handler {
          RequestsWorkUpdate(s.requests, r, s.requests[r].(phase := Done(false)));
        } else {
          var s1 := if s.inFlight.None? then StartCall(s, signedIn) else s;
          if s.inFlight.None? {
            assert s1.calls[..|s.calls|] == s.calls;
            if signedIn {
              assert s1.requests[..|s.requests|] == s.requests;
            }
          }
          RequestsWorkUpdate(s1.requests, r, s1.requests[r].(phase := Waiting(s1.inFlight.value)));
        }
      case Respond(r, ok) => RequestsWorkUpdate(s.requests, r, s.requests[r].(phase := Done(ok)));
      case Settle(c, verdict) => CallsWorkUpdate(s.calls, c, Settled(verdict));
      case Clear(c) => CallsWorkUpdate(s.calls, c, Cleared(s.calls[c].verdict));
      case Resume(r) =>
        var q := s.requests[r];
        RequestsWorkUpdate(s.requests, r, Request(q.authRoute, true, q.fetches + 1, Fetching));
        RequestsWorkUpdate(s.requests, r, q.(phase := Done(false)));
    }
  }

  /**
   The refresh-and-retry dance always ends: between two application calls the event loop
   takes at most `Work` steps, whatever the server answers.
   */
  lemma {:induction false} EveryBurstEnds(states: seq<State>, actions: seq<Action>, from: nat, to: nat)
    requires IsRun(states, actions) && Initial(states[0]) && from <= to < |states|
    requires forall i :: from <= i < to ==> IsLoopStep(actions[i])
    ensures to - from + Work(states[to]) <= Work(states[from])
  {
    if from < to {
      EveryBurstEnds(states, actions, from, to - 1);
      RunKeepsInv(states, actions, to - 1);
      assert Step(states[to - 1], actions[to - 1], states[to]);
      WorkDecreases(states[to - 1], actions[to - 1]);
    }
  }
}
