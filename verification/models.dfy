/**
 * Jobs, their status codes and the outcome of solving one.
 * Identifiers (Guid) are abstract naturals; tokens and urls are strings.
 */
module Models {
  import opened Common

  type Guid = nat

  /** Kind of challenge a SolveCaptcha command asks for. */
  datatype CaptchaType = Unknown | Turnstile

  /**
   * A submitted job. `Command` is an abstract record in the program with one
   * concrete subtype, SolveCaptcha; OtherCommand stands for any other subtype,
   * which the dispatch loops skip.
   */
  datatype Command =
    | SolveCaptcha(id: Guid, key: string, captchaType: CaptchaType, siteKey: string, url: string)
    | OtherCommand(id: Guid, key: string)

  /** Execution status of a command, with the program's numeric codes. */
  datatype CommandExecutionStatus = Queued | Processing | Success | Failed | Error
  {
    function Code(): (c: int)
      ensures 1 <= c <= 5
      ensures c == 1 <==> this == Queued
      ensures c == 5 <==> this == Error
    {
      match this
      case Queued => 1
      case Processing => 2
      case Success => 3
      case Failed => 4
      case Error => 5
    }

    /** Success, Failed and Error end a command's life; nothing follows them. */
    predicate IsTerminal()
    {
      this == Success || this == Failed || this == Error
    }

    /** Position in the lifecycle Queued -> Processing -> terminal. */
    function Stage(): (n: nat)
      ensures n <= 2
      ensures n == 2 <==> IsTerminal()
    {
      match this
      case Queued => 0
      case Processing => 1
      case _ => 2
    }
  }

  /** The status a numeric code denotes, if any. */
  function StatusOfCode(c: int): (s: Option<CommandExecutionStatus>)
    ensures s.Some? <==> 1 <= c <= 5
    ensures s.Some? ==> s.value.Code() == c
  {
    if c == 1 then Some(Queued)
    else if c == 2 then Some(Processing)
    else if c == 3 then Some(Success)
    else if c == 4 then Some(Failed)
    else if c == 5 then Some(Error)
    else None
  }

  /** Decoding a status's code gives the status back. */
  lemma CodeRoundTrip(s: CommandExecutionStatus)
    ensures StatusOfCode(s.Code()) == Some(s)
  {
  }

  /**
   * The lifecycle order: a status may be followed by itself or by a status at a
   * later stage; a terminal status is followed only by itself.
   */
  predicate MayFollow(before: CommandExecutionStatus, after: CommandExecutionStatus)
  {
    before == after || before.Stage() < after.Stage()
  }

  /** MayFollow chains: a run of lifecycle steps is a lifecycle step. */
  lemma MayFollowTransitive(a: CommandExecutionStatus, b: CommandExecutionStatus, c: CommandExecutionStatus)
    requires MayFollow(a, b) && MayFollow(b, c)
    ensures MayFollow(a, c)
  {
  }

  /** A terminal status is never left. */
  lemma TerminalIsFinal(a: CommandExecutionStatus, b: CommandExecutionStatus)
    requires a.IsTerminal() && MayFollow(a, b)
    ensures b == a
  {
  }

  /** What the solver gave back: a string (null when None) or an exception. */
  datatype SolveOutcome = Returned(result: Option<string>) | Faulted
}
