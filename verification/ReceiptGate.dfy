/** The agent receipt gate: an action approval that its requester consumed authorizes one tool call. The
    gate reads it, reserves it by compare-and-set, and settles it after the handler. */
module ReceiptGate {
  import opened Wrappers
  import Text

  const ACTION_KIND_PREFIX := "mcp.tool.call:mcp__mctl__"
  const RECEIPT_TARGET := "mctl"

  datatype ApprovalState = Pending | Approved | Denied | Consumed | InFlight | Executed

  /** An action approval request. Only `state`, `consumedAt` and `freshUntil` change after creation. */
  datatype Approval = Approval(requestedBy: string, execution: string, kind: string, target: string, artifact: string,
                               expiresAt: int, state: ApprovalState, consumedAt: Option<int>, freshUntil: Option<int>)

  /** `execution` is the execution an agent run token is bound to, if any. */
  datatype Caller = Caller(principal: string, isAgent: bool, execution: Option<string>)

  datatype Check = Check(tool: string, artifact: string, maxAge: int)

  datatype Code =
    | Valid | NotFound | OperationMismatch | TargetMismatch | NotConsumed | AlreadyExecuted
    | ArtifactMismatch | Unverifiable | CodeInFlight | Stale

  datatype StoreError =
    | ErrNotFound | ErrExecuted | ErrInFlight | ErrDenied | ErrNotConsumed | ErrTargetMismatch | ErrStale | ErrInvalid

  // ---- The store's compare-and-sets ----

  predicate IsStale(a: Approval, maxAge: int, now: int) {
    || maxAge <= 0 || a.consumedAt.None? || a.consumedAt.value <= now - maxAge
    || (a.freshUntil.Some? && a.freshUntil.value <= now)
  }

  /** The WHERE clause of the reservation. */
  predicate MayReserve(a: Approval, caller: string, target: string, artifact: string, maxAge: int, now: int) {
    && a.state == Consumed && a.requestedBy == caller && a.target == target
    && a.artifact == artifact && a.artifact != ""
    && a.consumedAt.Some? && a.consumedAt.value > now - maxAge
    && (a.freshUntil.Some? ==> a.freshUntil.value > now)
  }

  predicate BadArguments(caller: string, target: string, artifact: string, maxAge: int) {
    Text.Blank(target) || Text.Blank(artifact) || Text.Blank(caller) || maxAge <= 0
  }

  /** The reason a failed reservation reports, from a second read of the row. */
  function ReserveRefusal(a: Approval, caller: string, target: string, artifact: string, maxAge: int, now: int): StoreError {
    if a.requestedBy != caller then ErrNotFound
    else if a.state == Executed then ErrExecuted
    else if a.state == InFlight then ErrInFlight
    else if a.state == Denied then ErrDenied
    else if a.state != Consumed then ErrNotConsumed
    else if a.target != target || a.artifact == "" || a.artifact != artifact then ErrTargetMismatch
    else if IsStale(a, maxAge, now) then ErrStale
    else ErrNotConsumed
  }

  predicate MaySettle(a: Approval, caller: string) {
    a.state == InFlight && a.requestedBy == caller
  }

  function Settled(a: Approval, succeeded: bool): Approval {
    a.(state := if succeeded then Executed else Consumed)
  }

  predicate MayMarkExecuted(a: Approval, caller: string, target: string, artifact: string) {
    a.state == Consumed && a.requestedBy == caller && a.target == target && a.artifact == artifact && a.artifact != ""
  }

  // ---- The gate ----

  predicate OwnExecution(a: Approval, c: Caller) {
    c.isAgent ==> c.execution == Some(a.execution)
  }

  /** What the read in VerifyAgentReceipt answers. */
  function ReadCode(a: Approval, caller: Caller, check: Check, now: int): Code {
    if a.requestedBy != caller.principal || !OwnExecution(a, caller) then NotFound
    else if a.kind != ACTION_KIND_PREFIX + check.tool then OperationMismatch
    else if a.target != RECEIPT_TARGET then TargetMismatch
    else if a.state == InFlight then CodeInFlight
    else if a.state == Executed then AlreadyExecuted
    else if a.state != Consumed then NotConsumed
    else if check.artifact == "" || a.artifact == "" || a.artifact != check.artifact then ArtifactMismatch
    else if IsStale(a, check.maxAge, now) then Stale
    else Valid
  }

  function SpendErrorCode(e: StoreError): Code {
    match e
    case ErrExecuted => AlreadyExecuted
    case ErrInFlight => CodeInFlight
    case ErrStale => Stale
    case ErrNotConsumed => NotConsumed
    case ErrDenied => NotConsumed
    case ErrTargetMismatch => ArtifactMismatch
    case ErrNotFound => NotFound
    case ErrInvalid => Unverifiable
  }

  /** The parts of a request that authorize a call and never change. */
  predicate FitsCall(a: Approval, caller: Caller, check: Check) {
    && a.requestedBy == caller.principal && OwnExecution(a, caller)
    && a.kind == ACTION_KIND_PREFIX + check.tool && a.target == RECEIPT_TARGET
    && a.artifact == check.artifact && a.artifact != ""
  }

  /** The receipt was consumed, recently, and its decision is still fresh. */
  predicate IsLive(a: Approval, maxAge: int, now: int) {
    && maxAge > 0 && a.consumedAt.Some? && a.consumedAt.value > now - maxAge
    && (a.freshUntil.Some? ==> a.freshUntil.value > now)
  }

  /** The read authorizes exactly when every condition holds. */
  lemma ReadAuthorizesExactly(a: Approval, caller: Caller, check: Check, now: int)
    ensures ReadCode(a, caller, check, now) == Valid
            <==> FitsCall(a, caller, check) && a.state == Consumed && IsLive(a, check.maxAge, now)
  {
  }

  ghost predicate IsOwn(a: Approval, caller: Caller) {
    a.requestedBy == caller.principal && (caller.isAgent ==> caller.execution == Some(a.execution))
  }

  /** Which refusal a read gives: the first that applies, in the order who, what, where, state, artifact, age. */
  lemma ReadRefusesExactly(a: Approval, caller: Caller, check: Check, now: int)
    ensures var code := ReadCode(a, caller, check, now);
            var kind := "mcp.tool.call:mcp__mctl__" + check.tool;
            if !IsOwn(a, caller) then code == NotFound
            else if a.kind != kind then code == OperationMismatch
            else if a.target != "mctl" then code == TargetMismatch
            else
              match a.state
              case InFlight => code == CodeInFlight
              case Executed => code == AlreadyExecuted
              case Consumed =>
                if a.artifact != check.artifact || a.artifact == "" then code == ArtifactMismatch
                else code == if IsLive(a, check.maxAge, now) then Valid else Stale
              case _ => code == NotConsumed
  {
  }

  ghost predicate SameRequest(a: Approval, b: Approval) {
    && a.requestedBy == b.requestedBy && a.execution == b.execution && a.kind == b.kind
    && a.target == b.target && a.artifact == b.artifact && a.expiresAt == b.expiresAt
  }

  /** The compare-and-set alone re-establishes everything the earlier read saw: if the request passed the read
      at some time and the reservation's WHERE clause holds of its row later, the row authorizes the call at
      that later time. */
  lemma ReserveRestoresTheRead(seen: Approval, row: Approval, caller: Caller, check: Check, then': int, now: int)
    requires ReadCode(seen, caller, check, then') == Valid && SameRequest(seen, row)
    requires !BadArguments(caller.principal, RECEIPT_TARGET, check.artifact, check.maxAge)
    ensures MayReserve(row, caller.principal, RECEIPT_TARGET, check.artifact, check.maxAge, now)
            <==> ReadCode(row, caller, check, now) == Valid
  {
  }

  /** A lost race is reported as a fresh read would report it: the code mapped from the store's refusal is
      the code the read gives for the row that was refused. The one shared error for target and artifact can
      only mean the artifact, and that cannot differ either. */
  lemma RefusalReadsTheSame(seen: Approval, row: Approval, caller: Caller, check: Check, then': int, now: int)
    requires ReadCode(seen, caller, check, then') == Valid && SameRequest(seen, row)
    requires !MayReserve(row, caller.principal, RECEIPT_TARGET, check.artifact, check.maxAge, now)
    ensures var e := ReserveRefusal(row, caller.principal, RECEIPT_TARGET, check.artifact, check.maxAge, now);
            SpendErrorCode(e) == ReadCode(row, caller, check, now) && SpendErrorCode(e) != Valid && e != ErrTargetMismatch
  {
  }

  /** How the handler ended. */
  datatype CallEnd = CallEnd(cancelled: bool, failed: bool, toolError: bool)

  /** The verdict that settles a receipt: a cancelled or timed-out request has an unknown outcome and spends it. */
  predicate CallSucceeded(end: CallEnd) {
    end.cancelled || (!end.failed && !end.toolError)
  }

  /** A call that returned clean, or was cancelled and may have happened, spends its receipt; only a failure known as one
      does not. */
  predicate IsSpent(end: CallEnd) {
    if end.failed || end.toolError then end.cancelled else true
  }

  lemma SpentExactly(end: CallEnd)
    ensures CallSucceeded(end) <==> IsSpent(end)
  {
  }

  class Gate {
    var approvals: map<string, Approval>

    constructor (initial: map<string, Approval>)
      ensures approvals == initial
    {
      approvals := initial;
    }

    /** VerifyAgentReceipt with nobody else at work: a redeeming check reserves the receipt exactly when it
        answers Valid, and nothing else ever changes the store. */
    method Verify(ref: string, caller: Caller, check: Check, redeem: bool, now: int) returns (code: Code)
      modifies this
      ensures ref !in old(approvals) ==> code == NotFound
      ensures ref in old(approvals) && ReadCode(old(approvals)[ref], caller, check, now) != Valid ==>
                code == ReadCode(old(approvals)[ref], caller, check, now)
      ensures ref in old(approvals) && ReadCode(old(approvals)[ref], caller, check, now) == Valid ==>
                code == if redeem && BadArguments(caller.principal, RECEIPT_TARGET, check.artifact, check.maxAge) then Unverifiable else Valid
      ensures approvals == if redeem && code == Valid then old(approvals)[ref := old(approvals)[ref].(state := InFlight)]
                           else old(approvals)
    {
      if ref !in approvals { return NotFound; }
      var a := approvals[ref];
      code := ReadCode(a, caller, check, now);
      if code != Valid || !redeem { return; }
      if BadArguments(caller.principal, RECEIPT_TARGET, check.artifact, check.maxAge) { return SpendErrorCode(ErrInvalid); }
      ReserveRestoresTheRead(a, a, caller, check, now, now);
      if MayReserve(a, caller.principal, RECEIPT_TARGET, check.artifact, check.maxAge, now) {
        approvals := approvals[ref := a.(state := InFlight)];
        return Valid;
      }
      return SpendErrorCode(ReserveRefusal(a, caller.principal, RECEIPT_TARGET, check.artifact, check.maxAge, now));
    }

    /** SettleAgentReceipt: in flight becomes executed, or consumed again for a retry; anything else is left
        as it is. */
    method Settle(ref: string, caller: string, end: CallEnd) returns (r: Result<(), StoreError>)
      modifies this
      ensures r.Ok? <==> !Text.Blank(caller) && ref in old(approvals) && MaySettle(old(approvals)[ref], caller)
      ensures r.Err? ==> approvals == old(approvals)
      ensures r.Ok? ==>
                && old(approvals)[ref].state == InFlight && old(approvals)[ref].requestedBy == caller
                && approvals == old(approvals)[ref := old(approvals)[ref].(state := if IsSpent(end) then Executed else Consumed)]
      ensures r.Err? ==>
                r.error == if Text.Blank(caller) then ErrInvalid
                           else if ref !in old(approvals) || old(approvals)[ref].requestedBy != caller then ErrNotFound
                           else if old(approvals)[ref].state == Executed then ErrExecuted
                           else ErrNotConsumed
    {
      if Text.Blank(caller) { return Err(ErrInvalid); }
      if ref !in approvals { return Err(ErrNotFound); }
      var a := approvals[ref];
      if MaySettle(a, caller) {
        approvals := approvals[ref := Settled(a, CallSucceeded(end))];
        return Ok(());
      }
      if a.requestedBy != caller { return Err(ErrNotFound); }
      if a.state == Executed { return Err(ErrExecuted); }
      return Err(ErrNotConsumed);
    }
  }
}
