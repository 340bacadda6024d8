/** Dispatching one call (backend/src/rpc/methods.rs) and preparing its reply
    (backend/src/rpc/session.rs): what the select loop may assume of the results it consumes. Handlers,
    the generation check and the serializer are parameters. */
module Dispatch {
  import opened Json
  import opened Protocol
  import opened SessionState
  import opened SessionSpec

  /** What a handler or a check gives; an error may carry a failure of the session. */
  datatype Verdict = Fine(result: Value) | Refused(code: ErrorCode, lifecycle: Option<LifecycleFailure>)

  /** The handler runs only once the caller is known and, for ordinary work, the generation holds and
      the activity of the client has been recorded. */
  datatype Dispatched = Dispatched(verdict: Verdict, ran: bool, guard: Option<LifecycleFailure>)

  function CodeOf(failure: LifecycleFailure): ErrorCode
  {
    if failure.Revoked? then Unauthorized else Unavailable
  }

  function DispatchCall(authenticated: bool, id: Option<RpcId>, target: Method, generation: Option<LifecycleFailure>,
                        activity: Option<ErrorCode>, handler: Verdict): Dispatched
  {
    if !authenticated && !target.Activates() then Dispatched(Refused(Unauthorized, None), false, None)
    else
      match target.Class()
      case Some(Handshake) => Dispatched(handler, true, None)
      case Some(Control) => Dispatched(handler, true, None)
      case Some(_) =>
        if generation.Some? then
          Dispatched(Refused(CodeOf(generation.value), generation), false, if id.None? then generation else None)
        else if activity.Some? then Dispatched(Refused(activity.value, None), false, None)
        else Dispatched(handler, true, None)
      case None => Dispatched(Refused(MethodNotFound, None), false, None)
  }

  /** The reply as it is queued. A text beyond the frame limit becomes an error without consequences. */
  function Prepare(id: RpcId, origin: nat, verdict: Verdict, text: string, apology: string): Reply
  {
    if |text| > MAX_FRAME_BYTES then Reply(id, apology, false, None, Some(origin))
    else Reply(id, text, verdict.Fine?, if verdict.Refused? then verdict.lifecycle else None, Some(origin))
  }

  function ReplyTo(k: Work, verdict: Verdict, text: string, apology: string): Option<Reply>
  {
    if k.id.Some? && k.origin.Some? then Some(Prepare(k.id.value, k.origin.value, verdict, text, apology)) else None
  }

  /** A call is answered exactly when it has an id, under that id, and a success never carries a
      failure of the session: every result meets what the select loop assumes of it. */
  lemma ResultsMeetTheAssumption(k: Work, verdict: Verdict, text: string, apology: string)
    requires k.origin.Some? <==> k.id.Some?
    ensures Answers(k, ReplyTo(k, verdict, text, apology))
  {
  }

  /** Without an identity nothing runs but the two methods that create one; a failed generation check,
      and activity that cannot be recorded, keep the handler from running; and the failure of the check
      reaches the loop in exactly one way, in the reply
      if the call has one and through the guard if it has none. */
  lemma FailuresAreReportedOnce(authenticated: bool, k: Work, generation: Option<LifecycleFailure>,
                                activity: Option<ErrorCode>, handler: Verdict, text: string, apology: string)
    requires k.origin.Some? <==> k.id.Some?
    requires |text| <= MAX_FRAME_BYTES
    ensures var d := DispatchCall(authenticated, k.id, k.target, generation, activity, handler);
            var reply := ReplyTo(k, d.verdict, text, apology);
            && (d.ran ==> authenticated || k.target.SessionOpen? || k.target.CreateDevSession?)
            && (k.target.Class() == Some(Read) || k.target.Class() == Some(Mutation) ==>
                  && (d.ran <==> authenticated && generation.None? && activity.None?)
                  && (authenticated && generation.Some? ==>
                        (if k.id.Some? then reply.value.lifecycle == generation && d.guard.None? else d.guard == generation)))
            && (!d.ran && !(authenticated && generation.Some?) ==> LifecycleOf(reply).None? && d.guard.None?)
  {
  }
}
