/**
 * The doctor's confirm/cancel buttons on a pending appointment
 * (src/components/AppointmentActions.tsx). The component keeps its own copy
 * of the status and a loading flag around the status request; the
 * request's success is a parameter.
 */
module AppointmentActions {
  import opened Wrappers
  import opened Clinic

  /** The two buttons. */
  datatype Action = Confirm | Cancel

  function TargetStatus(action: Action): (s: string)
    ensures s == CONFIRMED || s == CANCELLED
    ensures action.Confirm? <==> s == CONFIRMED
  {
    match action
    case Confirm => CONFIRMED
    case Cancel => CANCELLED
  }

  /** The buttons are rendered only for a PENDING status; any other status renders nothing. */
  predicate ShowsActions(status: string) {
    status == PENDING
  }

  /** The status after a click: the target on an OK response, unchanged otherwise. */
  function StatusAfter(status: string, action: Action, ok: bool): (r: string)
    requires ShowsActions(status)
    ensures r in {PENDING, CONFIRMED, CANCELLED}
    ensures r == PENDING <==> !ok
    ensures ok ==> r == TargetStatus(action)
    ensures !ok ==> r == status
  {
    if ok then TargetStatus(action) else status
  }

  /** A click as the user makes it: which button, and whether the response was OK. */
  datatype Click = Click(action: Action, ok: bool)

  /** A run of clicks; a click on a status without buttons does nothing, as there is no button. */
  function Run(status: string, clicks: seq<Click>): (r: string)
    decreases |clicks|
  {
    if |clicks| == 0 then status
    else if ShowsActions(status) then Run(StatusAfter(status, clicks[0].action, clicks[0].ok), clicks[1..])
    else Run(status, clicks[1..])
  }

  /** CONFIRMED and CANCELLED are final: no run of clicks leaves them. */
  lemma {:induction false} Terminal(status: string, clicks: seq<Click>)
    requires status == CONFIRMED || status == CANCELLED
    ensures Run(status, clicks) == status
    decreases |clicks|
  {
    if |clicks| > 0 {
      Terminal(status, clicks[1..]);
    }
  }

  /** The button of the first click that got an OK response, if any. */
  function FirstOk(clicks: seq<Click>): (r: Option<Action>)
    ensures r.None? <==> forall i :: 0 <= i < |clicks| ==> !clicks[i].ok
    ensures r.Some? ==>
      exists i :: 0 <= i < |clicks| && clicks[i].ok && clicks[i].action == r.value && forall j :: 0 <= j < i ==> !clicks[j].ok
    decreases |clicks|
  {
    if |clicks| == 0 then None
    else if clicks[0].ok then Some(clicks[0].action)
    else
      var r := FirstOk(clicks[1..]);
      assert forall i :: 0 < i < |clicks| ==> clicks[i] == clicks[1..][i - 1];
      if r.Some? then
        var i :| 0 <= i < |clicks[1..]| && clicks[1..][i].ok && clicks[1..][i].action == r.value && forall j :: 0 <= j < i ==> !clicks[1..][j].ok;
        assert clicks[i + 1].ok && clicks[i + 1].action == r.value && forall j :: 0 <= j < i + 1 ==> !clicks[j].ok;
        r
      else r
  }

  /**
   * From PENDING, a run ends in PENDING when no click got an OK response,
   * and otherwise in the target of the first click that did.
   */
  lemma {:induction false} RunFromPending(clicks: seq<Click>)
    ensures Run(PENDING, clicks) == if FirstOk(clicks).None? then PENDING else TargetStatus(FirstOk(clicks).value)
    decreases |clicks|
  {
    if |clicks| > 0 {
      if clicks[0].ok {
        Terminal(TargetStatus(clicks[0].action), clicks[1..]);
      } else {
        RunFromPending(clicks[1..]);
      }
    }
  }

  class StatusActions {
    var status: string
    var loading: bool

    constructor(initial: string)
      ensures status == initial && !loading
    {
      status := initial;
      loading := false;
    }

    /**
     * `updateStatus`: the buttons exist only while PENDING and are disabled
     * while loading. `loading` is set for the request (`loadingDuringRequest`
     * records it) and cleared on every path afterwards.
     */
    method UpdateStatus(action: Action, ok: bool) returns (loadingDuringRequest: bool)
      requires ShowsActions(status) && !loading
      modifies this
      ensures loadingDuringRequest && !loading
      ensures status == StatusAfter(old(status), action, ok)
    {
      loading := true;
      loadingDuringRequest := loading;
      if ok {
        status := TargetStatus(action);
      }
      loading := false;
    }
  }
}
