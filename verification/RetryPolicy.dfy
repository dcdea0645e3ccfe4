/** How an attempt ends and how its message is settled (delivery.rs, processing.rs). */
module RetryPolicy {
  import opened Integers
  import opened Messages

  datatype AttemptKind = Succeeded | CommandFailed | Unrunnable | Interrupted

  datatype SettleAction = Acknowledge | Retry | MoveToFailed | Release

  datatype CommandResult = Ok | Stopped | Error

  function ForAttempt(kind: AttemptKind, envelope: Envelope): SettleAction {
    match kind
    case Succeeded => Acknowledge
    case CommandFailed => if envelope.HasRetriesLeft() then Retry else MoveToFailed
    case Unrunnable => MoveToFailed
    case Interrupted => Release
  }

  /** The run of a command that the registry may not know. `cancelled` tells whether the server
      is stopping when the command returns. */
  function RunAttempt(built: bool, result: CommandResult, cancelled: bool): AttemptKind {
    if !built then Unrunnable
    else match result
         case Ok => Succeeded
         case Stopped => if cancelled then Interrupted else CommandFailed
         case Error => CommandFailed
  }

  /** A delivery that arrives after the cancel is not run (processing.rs:54-61). */
  function AttemptOf(cancelledBefore: bool, built: bool, result: CommandResult, cancelledAfter: bool): AttemptKind {
    if cancelledBefore then Interrupted else RunAttempt(built, result, cancelledAfter)
  }

  function TakeBack(envelope: Envelope, times: nat): Envelope {
    if times == 0 then envelope else TakeBack(envelope, times - 1).TakeBackAttempt()
  }

  /** Every release of a delivery takes back one more attempt, also when an interrupted one is
      repeated. So the claim followed by `k` interrupted releases and a completed one stores
      `k` attempts less than before the claim, and never less than 0. */
  lemma {:induction false} RepeatedRelease(envelope: Envelope, k: nat)
    requires envelope.attempts < U32_MAX
    ensures TakeBack(envelope.CountAttempt(), k + 1)
         == envelope.(attempts := if envelope.attempts < k then 0 else envelope.attempts - k)
  {
    if k == 0 {
      assert TakeBack(envelope.CountAttempt(), 0) == envelope.CountAttempt();
    } else {
      RepeatedRelease(envelope, k - 1);
    }
  }

  /** A release that completes first time undoes the claim, except for a claim that wraps. */
  lemma ReleaseUndoesClaim(envelope: Envelope)
    ensures envelope.CountAttempt().TakeBackAttempt() == envelope <==> envelope.attempts < U32_MAX
  {
  }
}
