/** Classification of CancelTask answers (cancelOutcomes.ts). */
module Cancel {
  import opened Json
  import opened Rpc
  import opened Translate
  import Pointer

  datatype CancelKind =
    | CancelRejected
    | CancelRejectedUnknown
    | CancelledClean
    | CancelledUnconfirmed
    | CancelUnknown
    | TaskOutcomeUnknown

  datatype CancelOutcome = CancelOutcome(kind: CancelKind, engineAbort: Option<string>, terminalState: Option<string>)

  /** What became of one CancelTask call: a typed or untyped failure, or a result. */
  datatype CancelAnswer = CancelAnswer(rpcError: Option<RpcError>, failure: Option<WireFailure>, result: Option<Json>)

  function ErrorOf(a: CancelAnswer): Option<RpcError> {
    if a.rpcError.Some? then a.rpcError
    else if a.failure.Some? then a.failure.value.rpcError else None
  }

  /** The state and the abort report of a success envelope; an envelope without a task has neither. */
  function ReadResult(result: Json): (Option<string>, Option<string>) {
    if !result.Obj? then (None, None) else
    match Get(result.fields, "task")
    case Obj(task) =>
      var status := ObjAt(task, "status");
      (if status.Some? then StrAt(status.value, "state") else None, StrAt(result.fields, "engineAbort"))
    case Arr(_) => (None, StrAt(result.fields, "engineAbort"))
    case _ => (None, None)
  }

  function ClassifyCancel(a: CancelAnswer): CancelOutcome {
    match ErrorOf(a)
    case Some(e) =>
      var state := if e.data.Some? then StrAt(e.data.value, "state") else None;
      if ReasonOf(e) == Some("task_terminal") && state == Some(CANCELED) then
        CancelOutcome(CancelledUnconfirmed, None, state)
      else if ReasonOf(e) == Some("not_found_or_expired") then
        CancelOutcome(CancelRejectedUnknown, None, None)
      else CancelOutcome(CancelRejected, None, state)
    case None =>
      if a.failure.Some? then CancelOutcome(CancelUnknown, None, None)
      else if a.result.None? || !(a.result.value.Obj? || a.result.value.Arr?) then CancelOutcome(CancelUnknown, None, None)
      else
        var (state, engineAbort) := ReadResult(a.result.value);
        if state == Some(CANCELED) then
          CancelOutcome(if engineAbort == Some("confirmed") then CancelledClean else CancelledUnconfirmed, engineAbort, None)
        else CancelOutcome(CancelRejected, None, state)
  }

  /** The engine answered: a task is cancelled, and the abort of its run confirmed. */
  predicate SaysCancelled(a: CancelAnswer) {
    ErrorOf(a).None? && a.failure.None? && a.result.Some?
    && Pointer.At(a.result.value, [Pointer.Key("task"), Pointer.Key("status"), Pointer.Key("state")]) == Some(Str(CANCELED))
  }

  predicate ConfirmsAbort(a: CancelAnswer) {
    a.result.Some? && Pointer.At(a.result.value, [Pointer.Key("engineAbort")]) == Some(Str("confirmed"))
  }

  /** The engine refused because the task was cancelled before. */
  predicate WasCancelledBefore(e: RpcError) {
    e.data.Some? && StrAt(e.data.value, "reason") == Some("task_terminal") && StrAt(e.data.value, "state") == Some(CANCELED)
  }

  predicate DoesNotKnowTheTask(e: RpcError) { e.data.Some? && StrAt(e.data.value, "reason") == Some("not_found_or_expired") }

  /** Which answer counts as what: clean only with a confirmed abort, unknown only without any answer of the engine. */
  lemma AnswersAreClassifiedExactly(a: CancelAnswer)
    ensures var kind := ClassifyCancel(a).kind;
            && (kind.CancelledClean? <==> SaysCancelled(a) && ConfirmsAbort(a))
            && (kind.CancelledUnconfirmed? <==>
                  (SaysCancelled(a) && !ConfirmsAbort(a)) || (ErrorOf(a).Some? && WasCancelledBefore(ErrorOf(a).value)))
            && (kind.CancelRejectedUnknown? <==> ErrorOf(a).Some? && DoesNotKnowTheTask(ErrorOf(a).value))
            && (kind.CancelUnknown? <==>
                  ErrorOf(a).None? && (a.failure.Some? || a.result.None? || !(a.result.value.Obj? || a.result.value.Arr?)))
            && !kind.TaskOutcomeUnknown?
    ensures forall e :: ErrorOf(a) == Some(e) <==>
              a.rpcError == Some(e) || (a.rpcError.None? && a.failure.Some? && a.failure.value.rpcError == Some(e))
  {
    if a.result.Some? { ResultsAreReadAtPaths(a.result.value); }
    hide Pointer.At;
  }

  lemma ResultsAreReadAtPaths(result: Json)
    ensures Pointer.At(result, [Pointer.Key("task"), Pointer.Key("status"), Pointer.Key("state")]) == Some(Str(CANCELED))
            <==> ReadResult(result).0 == Some(CANCELED)
    ensures ReadResult(result).0 == Some(CANCELED) ==>
              (Pointer.At(result, [Pointer.Key("engineAbort")]) == Some(Str("confirmed")) <==> ReadResult(result).1 == Some("confirmed"))
  {
    var path: Pointer.Path := [Pointer.Key("task"), Pointer.Key("status"), Pointer.Key("state")];
    assert path[1..] == [Pointer.Key("status"), Pointer.Key("state")] && path[1..][1..] == [Pointer.Key("state")] && path[1..][1..][1..] == [];
    assert [Pointer.Key("engineAbort")][1..] == [];
    if result.Obj? && "task" in result.fields {
      var task := result.fields["task"];
      assert Pointer.At(result, path) == Pointer.At(task, path[1..]);
      if task.Obj? && "status" in task.fields {
        var status := task.fields["status"];
        assert Pointer.At(task, path[1..]) == Pointer.At(status, path[1..][1..]);
        if status.Obj? && "state" in status.fields {
          assert Pointer.At(status, path[1..][1..]) == Pointer.At(status.fields["state"], path[1..][1..][1..]) == Some(status.fields["state"]);
        }
      }
    }
    if result.Obj? && "engineAbort" in result.fields {
      assert Pointer.At(result, [Pointer.Key("engineAbort")]) == Pointer.At(result.fields["engineAbort"], []) == Some(result.fields["engineAbort"]);
    }
  }

  /** The answers after which the provider releases the ban. */
  predicate LiftsBan(kind: CancelKind) { kind.CancelledClean? || kind.CancelRejected? }

  /**
   * An answer lifts the ban exactly when it reports a cancelled task with a confirmed abort, or is
   * any other answer than a cancelled task, a task not found, a failure without an error, and silence.
   */
  lemma LiftedExactlyOnEvidence(a: CancelAnswer)
    ensures LiftsBan(ClassifyCancel(a).kind) <==>
      match ErrorOf(a)
      case Some(e) =>
        && ReasonOf(e) != Some("not_found_or_expired")
        && !(ReasonOf(e) == Some("task_terminal") && StrAt(e.data.value, "state") == Some(CANCELED))
      case None =>
        && a.failure.None? && a.result.Some? && (a.result.value.Obj? || a.result.value.Arr?)
        && (ReadResult(a.result.value).0 == Some(CANCELED) ==> ReadResult(a.result.value).1 == Some("confirmed"))
  {
  }

  /**
   * Two answers that say nothing about the task lift the ban all the same: a
   * success envelope without a task, and a refused authentication.
   */
  lemma AnswersWithoutATaskLift()
    ensures LiftsBan(ClassifyCancel(CancelAnswer(None, None, Some(Obj(map[])))).kind)
    ensures var refused := RpcError(-32000, "", Some(map["reason" := Str("auth_required")]));
            ClassifyRpcError(refused).kind == Auth
            && LiftsBan(ClassifyCancel(CancelAnswer(Some(refused), Some(ClassifyRpcError(refused)), None)).kind)
  {
    var data: Fields := map["reason" := Str("auth_required")];
    assert StrAt(data, "reason") == Some("auth_required");
  }
}
