/** Opening the optional stores at start-up: a retry ladder per store against one deadline shared by all, and a
    bounded last chance for a store that finds it spent. Times are milliseconds. */
module StoreInit {
  import opened Wrappers

  const ATTEMPTS := 6
  const BASE_DELAY := 250
  const BUDGET := 8000
  const LAST_CHANCE := 1000

  /** The shared start-up context. */
  datatype Context = Context(deadline: int, cancelledAt: Option<int>)

  function Done(ctx: Context): int {
    if ctx.cancelledAt.Some? && ctx.cancelledAt.value < ctx.deadline then ctx.cancelledAt.value else ctx.deadline
  }

  predicate WasCancelled(ctx: Context, t: int) {
    ctx.cancelledAt.Some? && ctx.cancelledAt.value < ctx.deadline && ctx.cancelledAt.value <= t
  }

  /** What a store's constructor would do: how long it takes and whether it then succeeds. */
  datatype Attempt = Attempt(duration: nat, ok: bool)

  /** The behaviour of one store's constructor at each of its attempts. */
  type Script = nat -> Attempt

  /** A constructor returns by the end of its context; one that is cut short fails. */
  function TryEnd(a: Attempt, t: int, end: int): int {
    if t + a.duration <= end then t + a.duration else end
  }

  predicate TryOk(a: Attempt, t: int, end: int) {
    t + a.duration <= end && a.ok
  }

  /** The wait after the n-th failed attempt: the base delay, doubled each time. */
  function Delay(n: nat): nat {
    if n <= 1 then BASE_DELAY else 2 * Delay(n - 1)
  }

  /** `end` is when the store was given up or open, `waited` the time spent between attempts. */
  datatype Outcome = Outcome(end: int, ok: bool, attempts: nat, waited: int)

  /** One turn of the loop: the store's outcome, or the time of the next attempt. */
  datatype Turn = Stop(outcome: Outcome) | Again(wake: int, waited: int)

  function TakeTurn(ctx: Context, a: Attempt, attempt: nat, t: int, waited: int): Turn
    requires 1 <= attempt <= ATTEMPTS
  {
    var end := Done(ctx);
    var t' := TryEnd(a, t, end);
    if t >= end then Stop(Outcome(t, false, attempt - 1, waited))
    else if TryOk(a, t, end) || attempt == ATTEMPTS || t' >= end then Stop(Outcome(t', TryOk(a, t, end), attempt, waited))
    else if t' + Delay(attempt) >= end then Stop(Outcome(end, false, attempt, waited + end - t'))
    else Again(t' + Delay(attempt), waited + Delay(attempt))
  }

  /** The ladder from an attempt on. */
  function Climb(ctx: Context, script: Script, attempt: nat, t: int, waited: int): Outcome
    requires 1 <= attempt <= ATTEMPTS
    decreases ATTEMPTS - attempt
  {
    match TakeTurn(ctx, script(attempt), attempt, t, waited)
    case Stop(outcome) => outcome
    case Again(wake, waited') => Climb(ctx, script, attempt + 1, wake, waited')
  }

  /** initStore of one store begun at t. */
  function Opened(ctx: Context, script: Script, t: int): Outcome {
    if t >= Done(ctx) && !WasCancelled(ctx, t) then
      Outcome(TryEnd(script(1), t, t + LAST_CHANCE), TryOk(script(1), t, t + LAST_CHANCE), 1, 0)
    else Climb(ctx, script, 1, t, 0)
  }

  // ---- The loop ----

  lemma FirstDelay()
    ensures Delay(1) == BASE_DELAY
  {
  }

  lemma OneTurn(ctx: Context, script: Script, attempt: nat, t: int, waited: int)
    requires 1 <= attempt <= ATTEMPTS
    ensures Climb(ctx, script, attempt, t, waited) ==
              match TakeTurn(ctx, script(attempt), attempt, t, waited)
              case Stop(outcome) => outcome
              case Again(wake, waited') => Climb(ctx, script, attempt + 1, wake, waited')
    ensures Delay(attempt + 1) == 2 * Delay(attempt)
  {
  }

  method InitStoreAttempts(ctx: Context, script: Script, begin: int) returns (r: Outcome)
    ensures r == Opened(ctx, script, begin)
  {
    var t, delay, attempt, waited := begin, BASE_DELAY, 1, 0;
    hide Climb;
    hide Delay;
    assert Delay(1) == BASE_DELAY by { FirstDelay(); }
    while true
      invariant 1 <= attempt <= ATTEMPTS && delay == Delay(attempt)
      invariant begin >= Done(ctx) ==> attempt == 1
      invariant attempt == 1 ==> t == begin && waited == 0
      invariant begin < Done(ctx) ==> Opened(ctx, script, begin) == Climb(ctx, script, attempt, t, waited)
      decreases ATTEMPTS - attempt
    {
      OneTurn(ctx, script, attempt, t, waited);
      if t >= Done(ctx) {
        if attempt == 1 && !WasCancelled(ctx, t) {
          return Outcome(TryEnd(script(1), t, t + LAST_CHANCE), TryOk(script(1), t, t + LAST_CHANCE), 1, 0);
        }
        return Outcome(t, false, attempt - 1, waited);
      }
      var t', ok := TryEnd(script(attempt), t, Done(ctx)), TryOk(script(attempt), t, Done(ctx));
      if ok { return Outcome(t', true, attempt, waited); }
      if attempt >= ATTEMPTS { return Outcome(t', false, attempt, waited); }
      if t' >= Done(ctx) { return Outcome(t', false, attempt, waited); }
      if t' + delay >= Done(ctx) { return Outcome(Done(ctx), false, attempt, waited + Done(ctx) - t'); }
      t, waited := t' + delay, waited + delay;
      delay := delay * 2;
      attempt := attempt + 1;
    }
  }

  // ---- One store ----

  /** The waits before an attempt, together. */
  function WaitsBefore(attempt: nat): nat {
    if attempt <= 1 then 0 else WaitsBefore(attempt - 1) + Delay(attempt - 1)
  }

  lemma {:induction false} WaitsGrow(m: nat, n: nat)
    ensures m <= n ==> WaitsBefore(m) <= WaitsBefore(n)
    decreases n
  {
    if m < n {
      WaitsGrow(m, n - 1);
    }
  }

  /** 250ms * (2^5 - 1). */
  lemma WholeLadder()
    ensures WaitsBefore(ATTEMPTS) == BASE_DELAY * 31
  {
  }

  /** What one turn does: it stops within the time and the waits allowed, or a failed attempt is followed by
      its whole wait. */
  lemma TurnIsBounded(ctx: Context, a: Attempt, attempt: nat, t: int, waited: int)
    requires 1 <= attempt <= ATTEMPTS && waited == WaitsBefore(attempt)
    ensures match TakeTurn(ctx, a, attempt, t, waited)
            case Stop(r) =>
              && t <= r.end && (r.end <= Done(ctx) || r.end == t)
              && r.attempts == (if t < Done(ctx) then attempt else attempt - 1)
              && waited <= r.waited <= WaitsBefore(attempt + 1) && (attempt == ATTEMPTS ==> r.waited == waited)
              && (r.ok ==> t < Done(ctx) && a.ok)
              && (!r.ok ==> r.attempts == ATTEMPTS || r.end >= Done(ctx))
            case Again(wake, waited') =>
              && attempt < ATTEMPTS && t <= wake < Done(ctx) && !a.ok
              && waited' == WaitsBefore(attempt + 1) && wake == t + a.duration + waited' - waited
  {
  }

  lemma {:induction false} ClimbIsBounded(ctx: Context, script: Script, attempt: nat, t: int, waited: int)
    requires 1 <= attempt <= ATTEMPTS && waited == WaitsBefore(attempt)
    ensures var r := Climb(ctx, script, attempt, t, waited);
            && t <= r.end && (r.end <= Done(ctx) || r.end == t)
            && attempt - 1 <= r.attempts <= ATTEMPTS
            && (t < Done(ctx) ==> r.attempts >= attempt)
            && waited <= r.waited <= WaitsBefore(ATTEMPTS)
            && (r.ok ==> r.attempts >= attempt && script(r.attempts).ok)
            && (forall k | attempt <= k < r.attempts :: !script(k).ok)
            && (!r.ok ==> r.attempts == ATTEMPTS || r.end >= Done(ctx))
    decreases ATTEMPTS - attempt
  {
    hide TakeTurn;
    hide WaitsBefore;
    WaitsGrow(attempt, ATTEMPTS);
    WaitsGrow(attempt, attempt + 1);
    if attempt < ATTEMPTS { WaitsGrow(attempt + 1, ATTEMPTS); }
    TurnIsBounded(ctx, script(attempt), attempt, t, waited);
    var turn := TakeTurn(ctx, script(attempt), attempt, t, waited);
    if turn.Again? {
      ClimbIsBounded(ctx, script, attempt + 1, turn.wake, turn.waited);
    }
  }

  /** One store: it makes one to six attempts unless the context was already cancelled, waits at most
      250ms * (2^5 - 1) in all, succeeds only on an attempt that succeeded after others that failed, gives up
      only after the last attempt or when its time is up, and ends by the shared deadline, or within a second
      if it began after it. */
  lemma OneStoreIsBounded(ctx: Context, script: Script, t: int)
    ensures var r := Opened(ctx, script, t);
            && t <= r.end
            && (t < Done(ctx) ==> r.end <= Done(ctx))
            && (t >= Done(ctx) ==> r.end <= t + LAST_CHANCE)
            && (if t >= Done(ctx) && WasCancelled(ctx, t) then r == Outcome(t, false, 0, 0) else 1 <= r.attempts <= ATTEMPTS)
            && 0 <= r.waited <= BASE_DELAY * 31
            && (r.ok ==> r.attempts >= 1 && script(r.attempts).ok)
            && (forall k | 1 <= k < r.attempts :: !script(k).ok)
            && (!r.ok ==> r.attempts == ATTEMPTS || r.end >= Done(ctx))
  {
    WholeLadder();
    if !(t >= Done(ctx) && !WasCancelled(ctx, t)) {
      ClimbIsBounded(ctx, script, 1, t, 0);
    }
  }

  function Durations(script: Script, n: nat): nat {
    if n == 0 then 0 else Durations(script, n - 1) + script(n).duration
  }

  /** A failing turn goes on exactly when its wait ends within the budget. */
  lemma FailingTurn(t0: int, a: Attempt, attempt: nat, t: int, waited: int)
    requires 1 <= attempt < ATTEMPTS && waited == WaitsBefore(attempt) && t < t0 + BUDGET && !a.ok
    ensures var turn := TakeTurn(Context(t0 + BUDGET, None), a, attempt, t, waited);
            && (turn.Again? <==> t + a.duration + Delay(attempt) < t0 + BUDGET)
            && (turn.Stop? ==> turn.outcome.attempts == attempt)
  {
  }

  lemma {:induction false} FailingClimb(script: Script, t0: int, attempt: nat, t: int, waited: int)
    requires 1 <= attempt <= ATTEMPTS && waited == WaitsBefore(attempt)
    requires forall k | 1 <= k <= ATTEMPTS :: !script(k).ok
    requires t == t0 + waited + Durations(script, attempt - 1) && t < t0 + BUDGET
    ensures Climb(Context(t0 + BUDGET, None), script, attempt, t, waited).attempts == ATTEMPTS
            <==> WaitsBefore(ATTEMPTS) + Durations(script, ATTEMPTS - 1) < BUDGET
    decreases ATTEMPTS - attempt
  {
    hide TakeTurn;
    var ctx := Context(t0 + BUDGET, None);
    var turn := TakeTurn(ctx, script(attempt), attempt, t, waited);
    TurnIsBounded(ctx, script(attempt), attempt, t, waited);
    if attempt < ATTEMPTS {
      FailingTurn(t0, script(attempt), attempt, t, waited);
      WaitsGrow(attempt + 1, ATTEMPTS);
      DurationsGrow(script, attempt, ATTEMPTS - 1);
      assert WaitsBefore(attempt + 1) == waited + Delay(attempt);
      assert Durations(script, attempt) == Durations(script, attempt - 1) + script(attempt).duration;
      hide WaitsBefore;
      hide Durations;
      if turn.Again? {
        FailingClimb(script, t0, attempt + 1, turn.wake, turn.waited);
      }
    }
  }

  lemma {:induction false} DurationsGrow(script: Script, m: nat, n: nat)
    ensures m <= n ==> Durations(script, m) <= Durations(script, n)
    decreases n
  {
    if m < n {
      DurationsGrow(script, m, n - 1);
    }
  }

  /** The budget leaves a lone store its whole ladder exactly when its first five failing attempts take less
      than 250ms together, which is what 8s leave beside the waits. */
  lemma LoneStoreGetsItsLadder(script: Script, t0: int)
    requires forall k | 1 <= k <= ATTEMPTS :: !script(k).ok
    ensures Opened(Context(t0 + BUDGET, None), script, t0).attempts == ATTEMPTS <==> Durations(script, ATTEMPTS - 1) < 250
  {
    WholeLadder();
    FailingClimb(script, t0, 1, t0, 0);
  }

  /** When an attempt begins if every earlier one fails and waits. */
  function Starts(script: Script, t0: int, k: nat): int
    requires k >= 1
  {
    t0 + WaitsBefore(k) + Durations(script, k - 1)
  }

  lemma StartsGrow(script: Script, t0: int, m: nat, n: nat)
    requires 1 <= m <= n
    ensures Starts(script, t0, m) <= Starts(script, t0, n)
  {
    WaitsGrow(m, n);
    DurationsGrow(script, m - 1, n - 1);
  }

  lemma StartsNext(script: Script, t0: int, k: nat)
    requires k >= 1
    ensures WaitsBefore(k + 1) == WaitsBefore(k) + Delay(k)
    ensures Starts(script, t0, k + 1) == Starts(script, t0, k) + script(k).duration + Delay(k)
  {
  }

  /** The k-th attempt is the first that would succeed, and it begins and ends in time. */
  ghost predicate OpensAt(ctx: Context, script: Script, t0: int, from: nat, k: nat)
    requires 1 <= from
  {
    && from <= k && script(k).ok && (forall j | from <= j < k :: !script(j).ok)
    && Starts(script, t0, k) < Done(ctx) && Starts(script, t0, k) + script(k).duration <= Done(ctx)
  }

  lemma {:induction false} ClimbSucceedsExactly(ctx: Context, script: Script, t0: int, attempt: nat)
    requires 1 <= attempt <= ATTEMPTS
    ensures Climb(ctx, script, attempt, Starts(script, t0, attempt), WaitsBefore(attempt)).ok
            <==> exists k | attempt <= k <= ATTEMPTS :: OpensAt(ctx, script, t0, attempt, k)
    decreases ATTEMPTS - attempt
  {
    hide WaitsBefore;
    hide Starts;
    var t, a := Starts(script, t0, attempt), script(attempt);
    var turn := TakeTurn(ctx, a, attempt, t, WaitsBefore(attempt));
    TurnIsBounded(ctx, a, attempt, t, WaitsBefore(attempt));
    OneTurn(ctx, script, attempt, t, WaitsBefore(attempt));
    StartsNext(script, t0, attempt);
    forall k | attempt < k ensures Starts(script, t0, attempt + 1) <= Starts(script, t0, k) {
      StartsGrow(script, t0, attempt + 1, k);
    }
    if turn.Again? {
      var next := attempt + 1;
      ClimbSucceedsExactly(ctx, script, t0, next);
      assert !OpensAt(ctx, script, t0, attempt, attempt);
      assert forall k | attempt < k :: OpensAt(ctx, script, t0, attempt, k) <==> OpensAt(ctx, script, t0, next, k);
    } else if TryOk(a, t, Done(ctx)) && t < Done(ctx) {
      assert OpensAt(ctx, script, t0, attempt, attempt);
    } else {
      forall k | attempt <= k <= ATTEMPTS ensures !OpensAt(ctx, script, t0, attempt, k) {
      }
    }
  }

  /** A store is opened exactly when the first attempt that would succeed is among its six and falls, with the waits
      before it, within the shared time; or, begun after it, when its one last chance succeeds within a second. */
  lemma OpensExactly(ctx: Context, script: Script, t: int)
    ensures Opened(ctx, script, t).ok <==>
              if t < Done(ctx) then exists k | 1 <= k <= 6 :: OpensAt(ctx, script, t, 1, k)
              else !WasCancelled(ctx, t) && script(1).ok && script(1).duration <= 1000
  {
    if t < Done(ctx) {
      assert Starts(script, t, 1) == t && WaitsBefore(1) == 0;
      ClimbSucceedsExactly(ctx, script, t, 1);
    }
  }

  // ---- All stores ----

  datatype Store = Store(name: string, script: Script)

  class StoreInitFailures {
    var names: seq<string>

    constructor ()
      ensures names == []
    {
      names := [];
    }

    method Record(name: string)
      modifies this
      ensures names == old(names) + [name]
    {
      names := names + [name];
    }

    method List() returns (r: seq<string>)
      ensures r == names
    {
      return names;
    }
  }

  /** When each of the stores, opened one after the other from t, begins. */
  function Begins(ctx: Context, stores: seq<Store>, t: int): int {
    if stores == [] then t
    else Opened(ctx, stores[|stores| - 1].script, Begins(ctx, stores[..|stores| - 1], t)).end
  }

  function OutcomeOf(ctx: Context, stores: seq<Store>, t: int, k: nat): Outcome
    requires k < |stores|
  {
    Opened(ctx, stores[k].script, Begins(ctx, stores[..k], t))
  }

  /** The stores that began once the shared time was up. */
  function BegunLate(ctx: Context, stores: seq<Store>, t: int): nat {
    if stores == [] then 0
    else
      var rest := stores[..|stores| - 1];
      BegunLate(ctx, rest, t) + if Begins(ctx, rest, t) >= Done(ctx) then 1 else 0
  }

  function FailedNames(ctx: Context, stores: seq<Store>, t: int): seq<string> {
    if stores == [] then []
    else
      var k := |stores| - 1;
      FailedNames(ctx, stores[..k], t) + if OutcomeOf(ctx, stores, t, k).ok then [] else [stores[k].name]
  }

  /** However many stores are opened in sequence, they are done by the shared deadline plus one second for each
      store begun after it. */
  lemma {:induction false} SequenceIsBounded(ctx: Context, stores: seq<Store>, t: int)
    requires t <= Done(ctx)
    ensures t <= Begins(ctx, stores, t) <= Done(ctx) + LAST_CHANCE * BegunLate(ctx, stores, t)
  {
    if stores != [] {
      var k := |stores| - 1;
      SequenceIsBounded(ctx, stores[..k], t);
      OneStoreIsBounded(ctx, stores[k].script, Begins(ctx, stores[..k], t));
    }
  }

  /** Opening every store in order records exactly the failed ones, in order. */
  method InitAll(ctx: Context, stores: seq<Store>, t0: int, failures: StoreInitFailures) returns (end: int)
    modifies failures
    ensures end == Begins(ctx, stores, t0)
    ensures failures.names == old(failures.names) + FailedNames(ctx, stores, t0)
    ensures t0 <= Done(ctx) ==> end <= Done(ctx) + LAST_CHANCE * BegunLate(ctx, stores, t0)
  {
    end := t0;
    for k := 0 to |stores|
      invariant end == Begins(ctx, stores[..k], t0)
      invariant failures.names == old(failures.names) + FailedNames(ctx, stores[..k], t0)
    {
      var r := InitStoreAttempts(ctx, stores[k].script, end);
      assert stores[..k + 1][..k] == stores[..k];
      if !r.ok { failures.Record(stores[k].name); }
      end := r.end;
    }
    assert stores[..|stores|] == stores;
    if t0 <= Done(ctx) { SequenceIsBounded(ctx, stores, t0); }
  }

  /** A name is listed exactly when its store failed: it is not ready for as long as the process lives. */
  lemma {:induction false} ListedExactlyFailed(ctx: Context, stores: seq<Store>, t: int, name: string)
    ensures name in FailedNames(ctx, stores, t)
            <==> exists k | 0 <= k < |stores| :: stores[k].name == name && !OutcomeOf(ctx, stores, t, k).ok
  {
    hide Opened;
    hide OutcomeOf;
    if stores != [] {
      var n := |stores| - 1;
      ListedExactlyFailed(ctx, stores[..n], t, name);
      forall k | 0 <= k < n ensures OutcomeOf(ctx, stores[..n], t, k) == OutcomeOf(ctx, stores, t, k) {
        EarlierOutcome(ctx, stores, t, k);
      }
    }
  }

  lemma EarlierOutcome(ctx: Context, stores: seq<Store>, t: int, k: nat)
    requires k < |stores| - 1
    ensures OutcomeOf(ctx, stores[..|stores| - 1], t, k) == OutcomeOf(ctx, stores, t, k)
  {
    hide Opened;
    assert stores[..|stores| - 1][..k] == stores[..k];
  }
}
