/** Any number of concurrent gated calls on one receipt. A statement sent to the store may land late, after
    its caller gave up, or never; a process may die anywhere. */
module ReceiptRuns {
  import opened Wrappers
  import opened ReceiptGate
  import Text

  /** Where a gated call stands. `Reserving` and `Settling` have a statement on its way. */
  datatype Phase =
    | Arrived
    | Checked(readAt: int)
    | Reserving(sentAt: int)
    | Won(sentAt: int)
    | Running(sentAt: int)
    | Settling
    | Over

  datatype Call = Call(caller: Caller, check: Check, phase: Phase)

  /** A statement on its way to the store. */
  datatype Statement = Reserve(sentAt: int) | Settle(succeeded: bool)

  datatype Event = Started(call: nat, row: Approval, sentAt: int) | ExecutedBy(call: nat) | ExecutedElsewhere

  /** One receipt's row, the calls on it, their statements on the way and, for the record, the call whose
      reservation landed last. */
  datatype State = State(row: Approval, now: int, calls: map<nat, Call>, air: map<nat, Statement>,
                         holder: Option<nat>, log: seq<Event>)

  datatype Action =
    | Arrive(id: nat, caller: Caller, check: Check)
    | Read(id: nat)
    | SendReserve(id: nat)
    | Land(id: nat)
    | Lose(id: nat)
    | HearBack(id: nat)
    | Return(id: nat, end: CallEnd)
    | Die(id: nat)
    | Decide(approve: bool, freshUntil: Option<int>)
    | Consume
    | MarkExecuted(principal: string, target: string, artifact: string)
    | Tick(now: int)

  function In(s: State, id: nat, phase: Phase): State
    requires id in s.calls
  {
    s.(calls := s.calls[id := s.calls[id].(phase := phase)])
  }

  /** A reservation lands. A caller that is still waiting will hear that it won; otherwise nobody runs. */
  function LandReserve(s: State, id: nat, sentAt: int): State
    requires id in s.calls && id in s.air
  {
    var c, s' := s.calls[id], s.(air := s.air - {id});
    if MayReserve(s.row, c.caller.principal, RECEIPT_TARGET, c.check.artifact, c.check.maxAge, sentAt)
    then
      var won := s'.(row := s.row.(state := InFlight), holder := Some(id));
      if c.phase.Reserving? then In(won, id, Won(sentAt)) else won
    else if c.phase.Reserving? then In(s', id, Over) else s'
  }

  function LandSettle(s: State, id: nat, succeeded: bool): State
    requires id in s.calls && id in s.air
  {
    var s' := s.(air := s.air - {id});
    var over := if s.calls[id].phase.Settling? then In(s', id, Over) else s';
    if !MaySettle(s.row, s.calls[id].caller.principal) then over
    else over.(row := Settled(s.row, succeeded), log := if succeeded then s.log + [ExecutedBy(id)] else s.log)
  }

  function Step(s: State, a: Action): Option<State> {
    match a
    case Arrive(id, caller, check) =>
      if id in s.calls then None else Some(s.(calls := s.calls[id := Call(caller, check, Arrived)]))
    case Read(id) =>
      if id !in s.calls || !s.calls[id].phase.Arrived? then None
      else if ReadCode(s.row, s.calls[id].caller, s.calls[id].check, s.now) == Valid then Some(In(s, id, Checked(s.now)))
      else Some(In(s, id, Over))
    case SendReserve(id) =>
      if id !in s.calls || !s.calls[id].phase.Checked? then None
      else
        var c := s.calls[id];
        if BadArguments(c.caller.principal, RECEIPT_TARGET, c.check.artifact, c.check.maxAge) then Some(In(s, id, Over))
        else Some(In(s, id, Reserving(s.now)).(air := s.air[id := Reserve(s.now)]))
    case Land(id) =>
      if id !in s.calls || id !in s.air then None
      else
        (match s.air[id]
         case Reserve(sentAt) => Some(LandReserve(s, id, sentAt))
         case Settle(succeeded) => Some(LandSettle(s, id, succeeded)))
    case Lose(id) => if id in s.air then Some(s.(air := s.air - {id})) else None
    case HearBack(id) =>
      if id !in s.calls || !s.calls[id].phase.Won? then None
      else
        var sentAt := s.calls[id].phase.sentAt;
        Some(In(s, id, Running(sentAt)).(log := s.log + [Started(id, s.row, sentAt)]))
    case Return(id, end) =>
      if id !in s.calls || !s.calls[id].phase.Running? then None
      else Some(In(s, id, Settling).(air := s.air[id := Settle(CallSucceeded(end))]))
    case Die(id) => if id in s.calls then Some(In(s, id, Over)) else None
    case Decide(approve, freshUntil) =>
      if s.row.state != Pending || s.row.expiresAt <= s.now then None
      else Some(s.(row := s.row.(state := if approve then Approved else Denied, freshUntil := freshUntil)))
    case Consume =>
      if s.row.state != Approved || s.row.expiresAt <= s.now || (s.row.freshUntil.Some? && s.row.freshUntil.value <= s.now) then None
      else Some(s.(row := s.row.(state := Consumed, consumedAt := Some(s.now))))
    case MarkExecuted(principal, target, artifact) =>
      if !MayMarkExecuted(s.row, principal, target, artifact) then None
      else Some(s.(row := s.row.(state := Executed), log := s.log + [ExecutedElsewhere]))
    case Tick(now) => if now < s.now then None else Some(s.(now := now))
  }

  function Run(s: State, actions: seq<Action>): Option<State> {
    if actions == [] then Some(s)
    else
      match Run(s, actions[..|actions| - 1])
      case None => None
      case Some(mid) => Step(mid, actions[|actions| - 1])
  }

  /** A request as it was created, before any call. */
  ghost predicate Initial(s: State) {
    s.row.state == Pending && s.calls == map[] && s.air == map[] && s.holder.None? && s.log == []
  }

  // ---- The invariant ----

  /** The call's reservation stands and is still to be settled by it. */
  predicate Active(s: State, id: nat) {
    && id in s.calls
    && (s.calls[id].phase.Won? || s.calls[id].phase.Running? || (id in s.air && s.air[id].Settle?))
  }

  /** The phases that say when the reservation was sent. */
  predicate IsSent(p: Phase) {
    p.Reserving? || p.Won? || p.Running?
  }

  ghost predicate CallSound(s: State, id: nat)
    requires id in s.calls
  {
    var c := s.calls[id];
    && (Active(s, id) ==> s.row.state == InFlight && s.holder == Some(id))
    && (c.phase.Checked? || IsSent(c.phase) || id in s.air ==> FitsCall(s.row, c.caller, c.check))
    && (c.phase.Won? || c.phase.Running? ==> IsLive(s.row, c.check.maxAge, c.phase.sentAt) && id !in s.air)
    && (c.phase.Arrived? || c.phase.Checked? ==> id !in s.air)
    && (c.phase.Reserving? && id in s.air ==> s.air[id] == Reserve(c.phase.sentAt) && c.check.maxAge > 0)
    && (c.phase.Settling? && id in s.air ==> s.air[id].Settle?)
  }

  function ExecutedCount(log: seq<Event>): nat {
    if log == [] then 0
    else ExecutedCount(log[..|log| - 1]) + if log[|log| - 1].Started? then 0 else 1
  }

  /** Every handler start was authorized by the row as it stood: same requester and execution, this tool,
      this artifact, reserved, consumed in time, recently consumed and fresh when the reservation was sent. */
  ghost predicate StartsAuthorized(s: State) {
    forall k | 0 <= k < |s.log| && s.log[k].Started? ::
      var e := s.log[k];
      && e.call in s.calls && e.row.state == InFlight && SameRequest(e.row, s.row)
      && FitsCall(e.row, s.calls[e.call].caller, s.calls[e.call].check)
      && IsLive(e.row, s.calls[e.call].check.maxAge, e.sentAt) && ConsumedInTime(e.row)
  }

  /** The request was consumed before it expired and while the decision was fresh. */
  ghost predicate ConsumedInTime(a: Approval) {
    && a.consumedAt.Some? && a.consumedAt.value < a.expiresAt
    && (a.freshUntil.Some? ==> a.consumedAt.value < a.freshUntil.value)
  }

  ghost predicate Invariant(s: State) {
    && (forall id | id in s.calls :: CallSound(s, id))
    && s.air.Keys <= s.calls.Keys
    && ExecutedCount(s.log) == (if s.row.state == Executed then 1 else 0)
    && (s.row.state == Consumed || s.row.state == InFlight || s.row.state == Executed ==> ConsumedInTime(s.row))
    && StartsAuthorized(s)
  }

  lemma LogOne(log: seq<Event>, e: Event)
    ensures ExecutedCount(log + [e]) == ExecutedCount(log) + if e.Started? then 0 else 1
  {
  }

  lemma FitsTheSame(a: Approval, b: Approval, caller: Caller, check: Check)
    requires SameRequest(a, b)
    ensures FitsCall(a, caller, check) <==> FitsCall(b, caller, check)
  {
  }

  /** Authorized starts stay on record: no step changes a request's fixed parts or who made a call. */
  lemma StartsStay(s: State, s': State)
    requires StartsAuthorized(s) && SameRequest(s.row, s'.row) && s.log <= s'.log
    requires forall k | |s.log| <= k < |s'.log| :: !s'.log[k].Started?
    requires forall id | id in s.calls :: id in s'.calls && s'.calls[id].caller == s.calls[id].caller && s'.calls[id].check == s.calls[id].check
    ensures StartsAuthorized(s')
  {
  }

  lemma ArriveOrReadKeeps(s: State, a: Action)
    requires Invariant(s) && Step(s, a).Some? && (a.Arrive? || a.Read?)
    ensures Invariant(Step(s, a).value)
  {
    hide StartsAuthorized;
    hide FitsCall;
    hide IsLive;
    hide ReadCode;
    var s' := Step(s, a).value;
    StartsStay(s, s');
    forall id | id in s'.calls ensures CallSound(s', id) {
      if id in s.calls {
        assert CallSound(s, id);
        ReadAuthorizesExactly(s.row, s.calls[id].caller, s.calls[id].check, s.now);
      }
    }
  }

  lemma SendKeeps(s: State, a: Action)
    requires Invariant(s) && Step(s, a).Some? && a.SendReserve?
    ensures Invariant(Step(s, a).value)
  {
    hide StartsAuthorized;
    hide FitsCall;
    hide IsLive;
    hide Text.Blank;
    var s' := Step(s, a).value;
    StartsStay(s, s');
    forall id | id in s'.calls ensures CallSound(s', id) {
      assert CallSound(s, id);
    }
  }

  lemma StopKeeps(s: State, a: Action)
    requires Invariant(s) && Step(s, a).Some? && (a.Lose? || a.Die?)
    ensures Invariant(Step(s, a).value)
  {
    hide StartsAuthorized;
    hide FitsCall;
    hide IsLive;
    hide Text.Blank;
    var s' := Step(s, a).value;
    StartsStay(s, s');
    forall id | id in s'.calls ensures CallSound(s', id) {
      assert CallSound(s, id);
    }
  }

  lemma LandReserveKeeps(s: State, id: nat)
    requires Invariant(s) && id in s.calls && id in s.air && s.air[id].Reserve?
    ensures Invariant(LandReserve(s, id, s.air[id].sentAt))
  {
    hide StartsAuthorized;
    hide FitsCall;
    var s' := LandReserve(s, id, s.air[id].sentAt);
    StartsStay(s, s');
    forall other | other in s'.calls ensures CallSound(s', other) {
      assert CallSound(s, other);
      FitsTheSame(s.row, s'.row, s.calls[other].caller, s.calls[other].check);
    }
  }

  lemma SettledIsSame(a: Approval, succeeded: bool)
    ensures SameRequest(a, Settled(a, succeeded)) && SameRequest(a, a)
  {
  }

  /** A call that holds nothing is as sound after the row's state changed. */
  lemma IdleCallStays(s: State, s': State, id: nat)
    requires id in s.calls && CallSound(s, id) && !Active(s, id)
    requires id in s'.calls && s'.calls[id] == s.calls[id] && SameRequest(s.row, s'.row)
    requires (id in s'.air <==> id in s.air) && (id in s.air ==> s'.air[id] == s.air[id])
    ensures CallSound(s', id)
  {
    hide FitsCall;
    hide IsLive;
    FitsTheSame(s.row, s'.row, s.calls[id].caller, s.calls[id].check);
  }

  lemma LandSettleKeeps(s: State, id: nat)
    requires Invariant(s) && id in s.calls && id in s.air && s.air[id].Settle?
    ensures Invariant(LandSettle(s, id, s.air[id].succeeded))
  {
    hide StartsAuthorized;
    hide FitsCall;
    hide IsLive;
    hide SameRequest;
    var s' := LandSettle(s, id, s.air[id].succeeded);
    assert CallSound(s, id) && Active(s, id);
    LogOne(s.log, ExecutedBy(id));
    SettledIsSame(s.row, s.air[id].succeeded);
    StartsStay(s, s');
    forall other | other in s'.calls ensures CallSound(s', other) {
      assert CallSound(s, other);
      if other != id { IdleCallStays(s, s', other); }
    }
  }

  lemma HearBackKeeps(s: State, id: nat)
    requires Invariant(s) && Step(s, HearBack(id)).Some?
    ensures Invariant(Step(s, HearBack(id)).value)
  {
    hide FitsCall;
    hide IsLive;
    var s' := Step(s, HearBack(id)).value;
    var e := Started(id, s.row, s.calls[id].phase.sentAt);
    assert CallSound(s, id);
    LogOne(s.log, e);
    forall other | other in s'.calls ensures CallSound(s', other) {
      assert CallSound(s, other);
    }
    StartsStay(s, s'.(log := s.log));
    assert forall k | 0 <= k < |s.log| :: s'.log[k] == s.log[k];
  }

  lemma ReturnKeeps(s: State, a: Action)
    requires Invariant(s) && Step(s, a).Some? && a.Return?
    ensures Invariant(Step(s, a).value)
  {
    hide StartsAuthorized;
    hide FitsCall;
    hide IsLive;
    var s' := Step(s, a).value;
    StartsStay(s, s');
    forall id | id in s'.calls ensures CallSound(s', id) {
      assert CallSound(s, id);
    }
  }

  /** Deciding, consuming and marking elsewhere happen only while nobody holds the receipt. */
  lemma OutsideStepKeeps(s: State, a: Action)
    requires Invariant(s) && Step(s, a).Some? && (a.Decide? || a.Consume? || a.MarkExecuted?)
    ensures Invariant(Step(s, a).value)
  {
    hide StartsAuthorized;
    hide FitsCall;
    hide IsLive;
    hide ExecutedCount;
    hide ConsumedInTime;
    hide Step;
    var s' := Step(s, a).value;
    OutsideStepMoves(s, a);
    StartsStay(s, s');
    forall id | id in s'.calls ensures CallSound(s', id) {
      assert CallSound(s, id);
      IdleCallStays(s, s', id);
    }
  }

  lemma OutsideStepMoves(s: State, a: Action)
    requires Step(s, a).Some? && (a.Decide? || a.Consume? || a.MarkExecuted?)
    requires ExecutedCount(s.log) == (if s.row.state == Executed then 1 else 0) && (s.row.state == Consumed ==> ConsumedInTime(s.row))
    ensures var s' := Step(s, a).value;
            && s'.calls == s.calls && s'.air == s.air && s'.holder == s.holder && SameRequest(s.row, s'.row)
            && s.row.state != InFlight && s.row.state != Executed && s'.row.state != InFlight
            && s.log <= s'.log && (forall k | |s.log| <= k < |s'.log| :: !s'.log[k].Started?)
            && ExecutedCount(s'.log) == (if s'.row.state == Executed then 1 else 0)
            && (s'.row.state == Consumed || s'.row.state == Executed ==> ConsumedInTime(s'.row))
  {
    LogOne(s.log, ExecutedElsewhere);
  }

  lemma TickKeeps(s: State, now: int)
    requires Invariant(s)
    ensures Invariant(s.(now := now))
  {
    hide StartsAuthorized;
    hide FitsCall;
    hide IsLive;
    StartsStay(s, s.(now := now));
    forall id | id in s.calls ensures CallSound(s.(now := now), id) {
      assert CallSound(s, id);
    }
  }

  lemma StepKeeps(s: State, a: Action)
    requires Invariant(s) && Step(s, a).Some?
    ensures Invariant(Step(s, a).value)
  {
    hide Invariant;
    match a
    case Land(id) => if s.air[id].Reserve? { LandReserveKeeps(s, id); } else { LandSettleKeeps(s, id); }
    case HearBack(id) => HearBackKeeps(s, id);
    case Return(_, _) => ReturnKeeps(s, a);
    case Decide(_, _) => OutsideStepKeeps(s, a);
    case Consume => OutsideStepKeeps(s, a);
    case MarkExecuted(_, _, _) => OutsideStepKeeps(s, a);
    case Tick(now) => TickKeeps(s, now);
    case Arrive(_, _, _) => ArriveOrReadKeeps(s, a);
    case Read(_) => ArriveOrReadKeeps(s, a);
    case SendReserve(_) => SendKeeps(s, a);
    case _ => StopKeeps(s, a);
  }

  lemma {:induction false} RunKeeps(s: State, actions: seq<Action>)
    requires Invariant(s) && Run(s, actions).Some?
    ensures Invariant(Run(s, actions).value)
  {
    hide Invariant;
    hide Step;
    if actions != [] {
      RunKeeps(s, actions[..|actions| - 1]);
      StepKeeps(Run(s, actions[..|actions| - 1]).value, actions[|actions| - 1]);
    }
  }

  // ---- Whole runs ----

  /** In every run: no two handlers run at once, the receipt is marked executed at most once, by a gated call
      or elsewhere, and every handler that started was authorized. */
  lemma OneCallPerReceipt(s: State, actions: seq<Action>)
    requires Initial(s) && Run(s, actions).Some?
    ensures var end := Run(s, actions).value;
            && (forall i, j | i in end.calls && j in end.calls && end.calls[i].phase.Running? && end.calls[j].phase.Running? :: i == j)
            && ExecutedCount(end.log) <= 1
            && StartsAuthorized(end)
  {
    RunKeeps(s, actions);
    var end := Run(s, actions).value;
    forall i, j | i in end.calls && j in end.calls && end.calls[i].phase.Running? && end.calls[j].phase.Running? ensures i == j {
      assert CallSound(end, i) && CallSound(end, j) && Active(end, i) && Active(end, j);
    }
  }

  /** The receipt is reserved and no settle for it will ever arrive. */
  ghost predicate Stranded(s: State) {
    s.row.state == InFlight && forall id | id in s.calls :: !Active(s, id)
  }

  lemma StrandedStays(s: State, a: Action)
    requires Invariant(s) && Stranded(s) && Step(s, a).Some?
    ensures var s' := Step(s, a).value;
            Stranded(s') && s'.row == s.row && s'.log == s.log
  {
    var s' := Step(s, a).value;
    assert a.Land? ==> CallSound(s, a.id) && !Active(s, a.id);
    assert a.HearBack? || a.Return? ==> !Active(s, a.id);
    forall id | id in s'.calls ensures !Active(s', id) {
      assert id in s.calls ==> !Active(s, id);
      if id in s.calls { assert CallSound(s, id); }
    }
  }

  /** A lost settle leaves the receipt unusable: in every continuation it stays in flight, no handler starts
      and nothing is marked executed. */
  lemma {:induction false} LostSettleIsFinal(s: State, actions: seq<Action>)
    requires Invariant(s) && Stranded(s) && Run(s, actions).Some?
    ensures var end := Run(s, actions).value;
            Stranded(end) && end.row == s.row && end.log == s.log
  {
    hide Invariant;
    hide Step;
    hide Stranded;
    if actions != [] {
      var n := |actions| - 1;
      LostSettleIsFinal(s, actions[..n]);
      RunKeeps(s, actions[..n]);
      StrandedStays(Run(s, actions[..n]).value, actions[n]);
    }
  }

  /** Losing the settle of the call that holds the receipt, or that call dying before it sends one, strands
      the receipt. */
  lemma LosingTheSettleStrands(s: State, id: nat, a: Action)
    requires Invariant(s) && Active(s, id) && (a == Lose(id) || (a == Die(id) && id !in s.air))
    requires Step(s, a).Some?
    ensures Stranded(Step(s, a).value)
  {
  }

  /** A failed call gives the receipt back: once its settle lands, the request is consumed again as before,
      and a read accepts it while it is live. */
  lemma FailedCallGivesItBack(s: State, id: nat, now: int)
    requires Invariant(s) && id in s.calls && id in s.air && s.air[id] == Settle(false)
    ensures var s' := Step(s, Land(id)).value; var c := s.calls[id];
            && s'.row == s.row.(state := Consumed)
            && (forall other | other in s'.calls :: !Active(s', other))
            && (ReadCode(s'.row, c.caller, c.check, now) == Valid <==> IsLive(s.row, c.check.maxAge, now))
  {
    assert CallSound(s, id) && Active(s, id);
    var s' := Step(s, Land(id)).value;
    LandSettleKeeps(s, id);
    forall other | other in s'.calls ensures !Active(s', other) {
      assert CallSound(s', other);
    }
    ReadAuthorizesExactly(s'.row, s.calls[id].caller, s.calls[id].check, now);
  }

  // ---- How a call ends decides what becomes of the receipt ----

  /** The call's handler is done, and any settle of it still on its way says so. */
  ghost predicate Ended(s: State, id: nat, spent: bool) {
    && id in s.calls && (s.calls[id].phase.Settling? || s.calls[id].phase.Over?)
    && (id in s.air ==> s.air[id] == Settle(spent))
  }

  lemma EndedStays(s: State, a: Action, id: nat, spent: bool)
    requires Ended(s, id, spent) && Step(s, a).Some?
    ensures Ended(Step(s, a).value, id, spent)
  {
  }

  lemma {:induction false} EndedForGood(s: State, actions: seq<Action>, id: nat, spent: bool)
    requires Ended(s, id, spent) && Run(s, actions).Some?
    ensures Ended(Run(s, actions).value, id, spent)
  {
    hide Step;
    hide Ended;
    if actions != [] {
      EndedForGood(s, actions[..|actions| - 1], id, spent);
      EndedStays(Run(s, actions[..|actions| - 1]).value, actions[|actions| - 1], id, spent);
    }
  }

  /** However late the settle of a call lands, the receipt is then executed if the call returned clean or was cancelled,
      and consumed again if it failed without being cancelled. */
  lemma CallEndDecides(s: State, id: nat, end: CallEnd, between: seq<Action>)
    requires Invariant(s) && Step(s, Return(id, end)).Some?
    requires Run(Step(s, Return(id, end)).value, between).Some?
    requires Step(Run(Step(s, Return(id, end)).value, between).value, Land(id)).Some?
    ensures var before := Run(Step(s, Return(id, end)).value, between).value; var after := Step(before, Land(id)).value;
            && before.row.state == InFlight
            && after.row == before.row.(state := if end.cancelled || (!end.failed && !end.toolError) then Executed else Consumed)
  {
    var s1 := Step(s, Return(id, end)).value;
    var before := Run(s1, between).value;
    StepKeeps(s, Return(id, end));
    RunKeeps(s1, between);
    EndedForGood(s1, between, id, CallSucceeded(end));
    SpentExactly(end);
    assert CallSound(before, id) && Active(before, id);
  }

  lemma FinalStays(s: State, a: Action)
    requires Invariant(s) && (s.row.state == Executed || s.row.state == Denied) && Step(s, a).Some?
    ensures Step(s, a).value.row == s.row && Step(s, a).value.log == s.log
  {
    hide FitsCall;
    hide IsLive;
    hide StartsAuthorized;
    NobodyHolds(s);
  }

  lemma NobodyHolds(s: State)
    requires Invariant(s) && s.row.state != InFlight
    ensures forall id | id in s.calls :: !Active(s, id)
  {
    forall id | id in s.calls ensures !Active(s, id) {
      assert CallSound(s, id);
    }
  }

  /** An executed or denied request starts no handler and changes no more, in every continuation. */
  lemma {:induction false} ExecutedOrDeniedIsFinal(s: State, actions: seq<Action>)
    requires Invariant(s) && (s.row.state == Executed || s.row.state == Denied) && Run(s, actions).Some?
    ensures Run(s, actions).value.row == s.row && Run(s, actions).value.log == s.log
  {
    hide Invariant;
    hide Step;
    if actions != [] {
      var n := |actions| - 1;
      ExecutedOrDeniedIsFinal(s, actions[..n]);
      RunKeeps(s, actions[..n]);
      FinalStays(Run(s, actions[..n]).value, actions[n]);
    }
  }

  /** Once the settle of a call that returned clean or was cancelled has landed, no handler starts on that receipt again. */
  lemma CleanCallIsTheLast(s: State, id: nat, end: CallEnd, between: seq<Action>, later: seq<Action>)
    requires Invariant(s) && Step(s, Return(id, end)).Some? && (end.cancelled || (!end.failed && !end.toolError))
    requires Run(Step(s, Return(id, end)).value, between).Some?
    requires Step(Run(Step(s, Return(id, end)).value, between).value, Land(id)).Some?
    ensures var landed := Step(Run(Step(s, Return(id, end)).value, between).value, Land(id)).value;
            Run(landed, later).Some? ==> Run(landed, later).value.row.state == Executed && Run(landed, later).value.log == landed.log
  {
    hide Invariant;
    hide Step;
    var s1 := Step(s, Return(id, end)).value;
    var before := Run(s1, between).value;
    var landed := Step(before, Land(id)).value;
    CallEndDecides(s, id, end, between);
    StepKeeps(s, Return(id, end));
    RunKeeps(s1, between);
    StepKeeps(before, Land(id));
    if Run(landed, later).Some? { ExecutedOrDeniedIsFinal(landed, later); }
  }

  /** The run returned from the call's handler in a way that spends, or does not spend, the receipt. */
  ghost predicate Returned(actions: seq<Action>, id: nat, spent: bool) {
    exists k | 0 <= k < |actions| ::
      && actions[k].Return? && actions[k].id == id
      && (spent <==> actions[k].end.cancelled || (!actions[k].end.failed && !actions[k].end.toolError))
  }

  lemma SettleComesFrom(s: State, a: Action, id: nat)
    requires Step(s, a).Some? && id in Step(s, a).value.air && Step(s, a).value.air[id].Settle?
    ensures var spent := Step(s, a).value.air[id].succeeded;
            (id in s.air && s.air[id] == Settle(spent)) || Returned([a], id, spent)
  {
    if a.Return? && a.id == id {
      SpentExactly(a.end);
      assert [a][0] == a;
    }
  }

  lemma {:induction false} SettlesWereReturned(s: State, actions: seq<Action>, id: nat)
    requires s.air == map[] && Run(s, actions).Some? && id in Run(s, actions).value.air && Run(s, actions).value.air[id].Settle?
    ensures Returned(actions, id, Run(s, actions).value.air[id].succeeded)
  {
    hide Step;
    var n := |actions| - 1;
    var mid := Run(s, actions[..n]).value;
    var spent := Run(s, actions).value.air[id].succeeded;
    SettleComesFrom(mid, actions[n], id);
    if id in mid.air && mid.air[id] == Settle(spent) {
      SettlesWereReturned(s, actions[..n], id);
      var k :| 0 <= k < n && actions[..n][k].Return? && actions[..n][k].id == id
               && (spent <==> actions[..n][k].end.cancelled || (!actions[..n][k].end.failed && !actions[..n][k].end.toolError));
      assert actions[k] == actions[..n][k];
    } else {
      var k :| 0 <= k < 1 && [actions[n]][k].Return? && [actions[n]][k].id == id
               && (spent <==> [actions[n]][k].end.cancelled || (!([actions[n]][k].end.failed) && !([actions[n]][k].end.toolError)));
      assert actions[n] == [actions[n]][k];
    }
  }

  /** Only a call that failed without being cancelled brings a reserved receipt back. */
  lemma OnlyFailureGivesBack(s: State, actions: seq<Action>, a: Action)
    requires Initial(s) && Run(s, actions).Some? && Step(Run(s, actions).value, a).Some?
    requires Run(s, actions).value.row.state == InFlight && Step(Run(s, actions).value, a).value.row.state == Consumed
    ensures a.Land? && exists k | 0 <= k < |actions| ::
              actions[k].Return? && actions[k].id == a.id && !actions[k].end.cancelled && (actions[k].end.failed || actions[k].end.toolError)
  {
    var mid := Run(s, actions).value;
    assert a.Land? && mid.air[a.id] == Settle(false);
    SettlesWereReturned(s, actions, a.id);
    var k :| 0 <= k < |actions| && actions[k].Return? && actions[k].id == a.id
             && (false <==> actions[k].end.cancelled || (!actions[k].end.failed && !actions[k].end.toolError));
  }

  /** Who may decide, consume and mark a request elsewhere, and when; and that time does not go back. */
  lemma OutsideStepsExactly(s: State, approve: bool, freshUntil: Option<int>, principal: string, target: string, artifact: string, now: int)
    ensures Step(s, Decide(approve, freshUntil)).Some? <==> s.row.state == Pending && s.now < s.row.expiresAt
    ensures Step(s, Consume).Some? <==>
              s.row.state == Approved && s.now < s.row.expiresAt && (s.row.freshUntil.None? || s.now < s.row.freshUntil.value)
    ensures Step(s, MarkExecuted(principal, target, artifact)).Some? <==>
              && s.row.state == Consumed && s.row.requestedBy == principal && s.row.target == target
              && s.row.artifact == artifact && artifact != ""
    ensures Step(s, Tick(now)) == if s.now <= now then Some(s.(now := now)) else None
  {
  }

  /** A reservation that lands takes a consumed receipt, young and fresh enough when it was sent, for its sender; otherwise
      it changes nothing. The sender that still waits is told which. */
  lemma ReserveLandsExactly(s: State, id: nat)
    requires Invariant(s) && id in s.calls && id in s.air && s.air[id].Reserve?
    ensures var s', c, sentAt := Step(s, Land(id)).value, s.calls[id], s.air[id].sentAt;
            var wins := && s.row.state == Consumed && s.row.consumedAt.Some? && sentAt - c.check.maxAge < s.row.consumedAt.value
                        && (s.row.freshUntil.None? || sentAt < s.row.freshUntil.value);
            && s'.row == (if wins then s.row.(state := InFlight) else s.row)
            && s'.holder == (if wins then Some(id) else s.holder)
            && s'.calls[id].phase == if !c.phase.Reserving? then c.phase else if wins then Won(sentAt) else Over
  {
    assert CallSound(s, id);
  }

  // ---- The run ----

  /** A request approved, consumed and used by one call. */
  function UseRun(caller: Caller, check: Check, end: CallEnd): seq<Action> {
    [Decide(true, None), Consume, Arrive(0, caller, check), Read(0), SendReserve(0), Land(0), HearBack(0), Return(0, end), Land(0)]
  }

  /** The run's states. */
  ghost function UseAt(s: State, caller: Caller, check: Check, end: CallEnd, k: nat): State
    requires k <= 9
  {
    var row := s.row.(state := Consumed, consumedAt := Some(s.now), freshUntil := None);
    var held := row.(state := InFlight);
    if k == 0 then s
    else if k == 1 then s.(row := s.row.(state := Approved, freshUntil := None))
    else if k == 2 then s.(row := row)
    else if k == 3 then s.(row := row, calls := map[0 := Call(caller, check, Arrived)])
    else if k == 4 then s.(row := row, calls := map[0 := Call(caller, check, Checked(s.now))])
    else if k == 5 then s.(row := row, calls := map[0 := Call(caller, check, Reserving(s.now))], air := map[0 := Reserve(s.now)])
    else if k == 6 then s.(row := held, calls := map[0 := Call(caller, check, Won(s.now))], holder := Some(0))
    else if k == 7 then
      s.(row := held, calls := map[0 := Call(caller, check, Running(s.now))], holder := Some(0), log := [Started(0, held, s.now)])
    else if k == 8 then
      s.(row := held, calls := map[0 := Call(caller, check, Settling)], holder := Some(0), log := [Started(0, held, s.now)],
         air := map[0 := Settle(CallSucceeded(end))])
    else
      s.(row := Settled(held, CallSucceeded(end)), calls := map[0 := Call(caller, check, Over)], holder := Some(0),
         log := [Started(0, held, s.now)] + if CallSucceeded(end) then [ExecutedBy(0)] else [])
  }

  /** The request can be approved now and is for this call. */
  ghost predicate Usable(s: State, caller: Caller, check: Check) {
    && Initial(s) && s.now < s.row.expiresAt && FitsCall(s.row, caller, check) && check.maxAge > 0
    && !Text.Blank(caller.principal) && !Text.Blank(check.artifact)
  }

  lemma UseStep(s: State, caller: Caller, check: Check, end: CallEnd, k: nat)
    requires Usable(s, caller, check) && k < 9
    ensures Step(UseAt(s, caller, check, end, k), UseRun(caller, check, end)[k]) == Some(UseAt(s, caller, check, end, k + 1))
  {
    hide Text.Blank;
    hide CallSucceeded;
    TargetIsNotBlank();
    var at, next := UseAt(s, caller, check, end, k), UseAt(s, caller, check, end, k + 1);
    assert k >= 2 ==> at.calls[0 := next.calls[0]] == next.calls;
    assert k == 4 ==> at.air[0 := Reserve(s.now)] == next.air;
    assert k == 7 ==> at.air[0 := Settle(CallSucceeded(end))] == next.air;
    assert k == 5 || k == 8 ==> at.air - {0} == map[];
    assert k == 6 ==> at.log + [next.log[0]] == next.log;
    assert k == 8 ==> at.log + [ExecutedBy(0)] == [at.log[0], ExecutedBy(0)] && at.log + [] == at.log;
    ReadAuthorizesExactly(at.row, caller, check, s.now);
  }

  lemma TargetIsNotBlank()
    ensures !Text.Blank(RECEIPT_TARGET)
  {
    Text.BlankExactly(RECEIPT_TARGET);
    assert RECEIPT_TARGET[0] == 'm';
  }

  lemma {:induction false} UseRuns(s: State, caller: Caller, check: Check, end: CallEnd, k: nat)
    requires Usable(s, caller, check) && k <= 9
    ensures Run(s, UseRun(caller, check, end)[..k]) == Some(UseAt(s, caller, check, end, k))
  {
    hide Step;
    hide Usable;
    if k > 0 {
      UseRuns(s, caller, check, end, k - 1);
      UseStep(s, caller, check, end, k - 1);
      assert UseRun(caller, check, end)[..k][..k - 1] == UseRun(caller, check, end)[..k - 1];
    }
  }

  /** Every request that fits a call can be approved, consumed and run, and ends as that call ended. */
  lemma ReceiptIsUsable(s: State, caller: Caller, check: Check, end: CallEnd)
    requires Usable(s, caller, check)
    ensures Run(s, UseRun(caller, check, end)).Some?
    ensures var after := Run(s, UseRun(caller, check, end)).value;
            && after.row.state == (if end.cancelled || (!end.failed && !end.toolError) then Executed else Consumed)
            && after.log != [] && after.log[0].Started? && after.log[0].call == 0
            && (after.row.state == Executed <==> after.log == [after.log[0], ExecutedBy(0)])
  {
    hide Run;
    hide Usable;
    UseRuns(s, caller, check, end, 9);
    SpentExactly(end);
    assert UseRun(caller, check, end)[..9] == UseRun(caller, check, end);
  }
}
