/**
 * The older task manager: the same bounded queue and report map, without
 * access binding, whose dispatch loop awaits each solve before reading the
 * next command.
 */
module LegacyCommands {
  import opened Common
  import opened Models
  import opened LegacyReports
  import Commands

  /** Capacity 10, and writers wait while the queue is full. */
  const DefaultConfiguration := Commands.CommandManagerConfiguration(10, Commands.Wait)

  /**
   * The status a dequeued SolveCaptcha ends with: any non-null result is a
   * success (the empty string included), null is a failure, an exception is
   * an error.
   */
  function ProcessedStatus(outcome: SolveOutcome): (s: CommandExecutionStatus)
    ensures s.IsTerminal() && MayFollow(Processing, s)
    ensures s == Success <==> outcome.Returned? && outcome.result.Some?
    ensures s == Failed <==> outcome == Returned(None)
    ensures s == Error <==> outcome.Faulted?
  {
    match outcome
    case Returned(r) => if r.Some? then Success else Failed
    case Faulted => Error
  }

  /**
   * The two managers disagree on an empty token: this one counts any token
   * as a success, the newer one only a non-empty token. A null result is a
   * failure for both.
   */
  lemma VariantsDisagree(r: string)
    ensures ProcessedStatus(Returned(Some(r))) == Success
    ensures Commands.CompletedStatus(Some(r)) == Success <==> r != ""
    ensures ProcessedStatus(Returned(None)) == Commands.CompletedStatus(None) == Failed
  {
  }

  class CommandManager
  {
    const configuration: Commands.CommandManagerConfiguration
    var reports: map<Guid, CommandExecutionReport>
    /** Commands written to the channel and not yet read, oldest first. */
    var queue: seq<Command>
    /** The command whose solve the dispatch loop is awaiting, if any. */
    ghost var inFlight: Option<Guid>

    ghost predicate Valid()
      reads this, reports.Values
    {
      && 1 <= configuration.channelCapacity
      && |queue| <= configuration.channelCapacity
      && Filed()
      && QueueRegistered()
      && ProcessingInFlight()
    }

    /** Every report is filed under its own command's identifier, one object per identifier. */
    ghost predicate Filed()
      reads this, reports.Values
    {
      && (forall id :: id in reports ==> reports[id].command.id == id)
      && (forall i, j :: i in reports && j in reports && i != j ==> reports[i] != reports[j])
    }

    /** A queued command has its own Queued report, and appears in the queue once. */
    ghost predicate QueueRegistered()
      reads this, reports.Values
    {
      && (forall k :: 0 <= k < |queue| ==>
            queue[k].id in reports && reports[queue[k].id].command == queue[k]
            && reports[queue[k].id].status == Queued)
      && (forall k, l :: 0 <= k < l < |queue| ==> queue[k].id != queue[l].id)
    }

    /**
     * Because each solve is awaited inline, a report is Processing exactly
     * while its command is the one in flight, and only a returned solve
     * carries a result.
     */
    ghost predicate ProcessingInFlight()
      reads this, reports.Values
    {
      && (inFlight.Some? ==> inFlight.value in reports)
      && forall id :: id in reports ==>
        (reports[id].status == Processing <==> inFlight == Some(id))
        && (reports[id].status != Success && reports[id].status != Failed ==> reports[id].result == None)
    }

    constructor (configuration: Commands.CommandManagerConfiguration)
      requires 1 <= configuration.channelCapacity
      ensures Valid()
      ensures this.configuration == configuration
      ensures reports == map[] && queue == [] && inFlight == None
    {
      this.configuration := configuration;
      reports := map[];
      queue := [];
      inFlight := None;
    }

    /**
     * Registers a Queued report and appends the command to the queue; no
     * access binding is made. With the default Wait mode a write into a full
     * queue waits, so a fresh command needs room.
     */
    method Enqueue(command: Option<Command>) returns (r: Result<Guid, Commands.EnqueueError>)
      requires Valid()
      requires command.Some? && command.value.id !in reports ==> |queue| < configuration.channelCapacity
      modifies this
      ensures Valid()
      ensures command.None? ==> r == Err(Commands.ArgumentNull)
      ensures command.Some? && command.value.id in old(reports) ==> r == Err(Commands.InvalidOperation)
      ensures r.Err? ==> reports == old(reports) && queue == old(queue)
      ensures inFlight == old(inFlight)
      ensures command.Some? && command.value.id !in old(reports) ==>
        var c := command.value;
        && r == Ok(c.id)
        && reports.Keys == old(reports).Keys + {c.id}
        && (forall id :: id in old(reports) ==> reports[id] == old(reports)[id])
        && fresh(reports[c.id])
        && reports[c.id].command == c && reports[c.id].status == Queued && reports[c.id].result == None
        && queue == old(queue) + [c]
    {
      if command.None? {
        return Err(Commands.ArgumentNull);
      }
      var c := command.value;
      if c.id in reports {
        return Err(Commands.InvalidOperation);
      }
      var report := new CommandExecutionReport(c);
      reports := reports[c.id := report];
      queue := queue + [c];
      r := Ok(c.id);
    }

    /** The report registered for `id`, or null when there is none. */
    method GetCommandExecutionReport(id: Guid) returns (report: CommandExecutionReport?)
      ensures id in reports ==> report == reports[id]
      ensures id !in reports ==> report == null
    {
      report := null;
      if id in reports {
        report := reports[id];
      }
    }

    /**
     * First half of one iteration of the dispatch loop: reads the oldest
     * command; a SolveCaptcha is marked Processing and becomes the solve in
     * flight. Any other command is dropped and its report stays Queued. The
     * loop awaits each solve, so no command is read while one is in flight.
     */
    method StartSolve() returns (command: Command)
      requires Valid() && inFlight.None? && |queue| > 0
      modifies this, reports.Values
      ensures Valid()
      ensures command == old(queue[0]) && queue == old(queue[1..])
      ensures reports == old(reports) && command.id in reports
      ensures command.SolveCaptcha? ==> inFlight == Some(command.id) && reports[command.id].status == Processing
      ensures command.OtherCommand? ==> inFlight == None && reports[command.id].status == Queued
      ensures forall id :: id in reports ==>
        MayFollow(old(reports[id].status), reports[id].status)
        && reports[id].result == old(reports[id].result)
        && (id != command.id ==> reports[id].status == old(reports[id].status))
    {
      command := queue[0];
      queue := queue[1..];
      if command.SolveCaptcha? {
        reports[command.id].status := Processing;
        inFlight := Some(command.id);
      }
    }

    /**
     * Second half: the awaited solve ends and the report of the command in
     * flight is settled. A returned value, null included, is stored as the
     * result; an exception only sets the status.
     */
    method Settle(id: Guid, outcome: SolveOutcome)
      requires Valid() && inFlight == Some(id)
      modifies this, reports.Values
      ensures Valid()
      ensures inFlight == None && queue == old(queue) && reports == old(reports)
      ensures
        && reports[id].status == ProcessedStatus(outcome)
        && reports[id].result == (if outcome.Returned? then outcome.result else None)
        && (reports[id].Succeeded() <==> outcome.Returned? && outcome.result.Some?)
      ensures forall other :: other in reports ==>
        MayFollow(old(reports[other].status), reports[other].status)
        && (other != id ==>
              reports[other].status == old(reports[other].status) && reports[other].result == old(reports[other].result))
    {
      var report := reports[id];
      match outcome {
        case Returned(r) =>
          report.status := if r.Some? then Success else Failed;
          report.result := r;
        case Faulted =>
          report.status := Error;
      }
      inFlight := None;
    }
  }
}
