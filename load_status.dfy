/** frontend/src/app/services/load-status.service.ts: a four-state load indicator. The
    status signal is a field; the computed flags are functions of it. */
module LoadStatus {
  datatype Status = Idle | Loading | Succeeded | Failed

  class LoadStatusService {
    var status: Status

    constructor ()
      ensures status == Idle
    {
      status := Idle;
    }

    function IsIdle(): bool reads this { status == Idle }
    function IsLoading(): bool reads this { status == Loading }
    function IsSuccess(): bool reads this { status == Succeeded }
    function IsError(): bool reads this { status == Failed }

    /** How many of the four flags hold. */
    function RaisedFlags(): (n: nat)
      reads this
      ensures n <= 4
    {
      (if IsIdle() then 1 else 0) + (if IsLoading() then 1 else 0) +
      (if IsSuccess() then 1 else 0) + (if IsError() then 1 else 0)
    }

    /** Exactly one of the flags holds, in every state. */
    lemma ExactlyOneFlag()
      ensures RaisedFlags() == 1
    {
    }

    method SetLoading()
      modifies this
      ensures status == Loading && IsLoading() && RaisedFlags() == 1
    {
      status := Loading;
    }

    method SetSuccess()
      modifies this
      ensures status == Succeeded && IsSuccess() && RaisedFlags() == 1
    {
      status := Succeeded;
    }

    method SetError()
      modifies this
      ensures status == Failed && IsError() && RaisedFlags() == 1
    {
      status := Failed;
    }

    method Reset()
      modifies this
      ensures status == Idle && IsIdle() && RaisedFlags() == 1
    {
      status := Idle;
    }
  }

  /** Calling a setter twice leaves the same status as calling it once: each pair holds the
      status of `a` after one call and of `b` after two. The first pair starts from any
      state, each later one from the state the previous setter left. */
  method SettersIdempotent(a: LoadStatusService, b: LoadStatusService)
    returns (loading: (Status, Status), success: (Status, Status), error: (Status, Status), idle: (Status, Status))
    modifies a, b
    ensures loading.0 == loading.1 == Loading
    ensures success.0 == success.1 == Succeeded
    ensures error.0 == error.1 == Failed
    ensures idle.0 == idle.1 == Idle
  {
    a.SetLoading();
    b.SetLoading();
    b.SetLoading();
    loading := (a.status, b.status);
    a.SetSuccess();
    b.SetSuccess();
    b.SetSuccess();
    success := (a.status, b.status);
    a.SetError();
    b.SetError();
    b.SetError();
    error := (a.status, b.status);
    a.Reset();
    b.Reset();
    b.Reset();
    idle := (a.status, b.status);
  }
}
