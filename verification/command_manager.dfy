/**
 * The command queue and report store: Enqueue registers a Queued report, binds
 * the caller's key to the command and writes the command into a bounded FIFO;
 * the dispatch loop reads commands in order, marks each SolveCaptcha as
 * Processing and starts its solve without waiting, and, when the solve
 * returns, its continuation later records the terminal status and the result.
 */
module Commands {
  import opened Common
  import opened Models
  import opened Reports
  import opened Authentication

  /** What a bounded channel does with a write while it is full. */
  datatype BoundedChannelFullMode = Wait | DropNewest | DropOldest | DropWrite

  datatype CommandManagerConfiguration =
    CommandManagerConfiguration(channelCapacity: int, channelFullMode: BoundedChannelFullMode)

  /** Capacity 10, and writers wait while the queue is full. */
  const DefaultConfiguration := CommandManagerConfiguration(10, Wait)

  /** Exceptions Enqueue throws: a null command, or an identifier that already has a report. */
  datatype EnqueueError = ArgumentNull | InvalidOperation

  /** The status the dispatch loop leaves on a dequeued command whose report had status `before`. */
  function StartedStatus(command: Command, startFaults: bool, before: CommandExecutionStatus): (s: CommandExecutionStatus)
    ensures before == Queued ==> MayFollow(before, s)
    ensures command.OtherCommand? ==> s == before
    ensures command.SolveCaptcha? && startFaults ==> s == Error
    ensures command.SolveCaptcha? && !startFaults ==> s == Processing
  {
    if command.OtherCommand? then before
    else if startFaults then Error
    else Processing
  }

  /** The status the continuation records when the solve returns `result`. */
  function CompletedStatus(result: Option<string>): (s: CommandExecutionStatus)
    ensures s.IsTerminal() && MayFollow(Processing, s)
    ensures s == Success <==> result.Some? && result.value != ""
    ensures s != Success ==> s == Failed
  {
    if result.Some? && result.value != "" then Success else Failed
  }

  class CommandManager
  {
    const configuration: CommandManagerConfiguration
    const authManager: AuthenticationManager
    var reports: map<Guid, CommandExecutionReport>
    /** Commands written to the channel and not yet read, oldest first. */
    var queue: seq<Command>
    /** Commands whose solve was started and whose continuation has not run yet. */
    ghost var pending: set<Guid>

    ghost predicate Valid()
      reads this, authManager, reports.Values
    {
      && 1 <= configuration.channelCapacity
      && |queue| <= configuration.channelCapacity
      && Filed()
      && QueueRegistered()
      && PendingProcessing()
      && ResultsOnlyWhenCompleted()
      && KeysHaveAccess()
    }

    /** Every report is filed under its own command's identifier, one object per identifier. */
    ghost predicate Filed()
      reads this, reports.Values
    {
      && (forall id :: id in reports ==> reports[id].command.id == id)
      && (forall i, j :: i in reports && j in reports && i != j ==> reports[i] != reports[j])
    }

    /** A queued command has its own Queued report, and appears in the queue once. */
    ghost predicate QueueRegistered()
      reads this, reports.Values
    {
      && (forall k :: 0 <= k < |queue| ==>
            queue[k].id in reports && reports[queue[k].id].command == queue[k]
            && reports[queue[k].id].status == Queued)
      && (forall k, l :: 0 <= k < l < |queue| ==> queue[k].id != queue[l].id)
    }

    /** A command whose continuation is outstanding is Processing. */
    ghost predicate PendingProcessing()
      reads this, reports.Values
    {
      forall id :: id in pending ==> id in reports && reports[id].status == Processing
    }

    /** Only a completed solve carries a result. */
    ghost predicate ResultsOnlyWhenCompleted()
      reads this, reports.Values
    {
      forall id :: id in reports && reports[id].status != Success && reports[id].status != Failed ==>
        reports[id].result == None
    }

    /** The submitting caller's key has access to every registered command. */
    ghost predicate KeysHaveAccess()
      reads this, authManager, reports.Values
    {
      forall id :: id in reports ==> authManager.HasAccess(reports[id].command.key, id)
    }

    constructor (configuration: CommandManagerConfiguration, authManager: AuthenticationManager)
      requires 1 <= configuration.channelCapacity
      ensures Valid()
      ensures this.configuration == configuration && this.authManager == authManager
      ensures reports == map[] && queue == [] && pending == {}
    {
      this.configuration := configuration;
      this.authManager := authManager;
      reports := map[];
      queue := [];
      pending := {};
    }

    /**
     * Registers a Queued report for the command, binds the command's key to its
     * identifier and appends the command to the queue. With the default Wait
     * mode a write into a full queue waits, so a fresh command needs room.
     */
    method Enqueue(command: Option<Command>) returns (r: Result<Guid, EnqueueError>)
      requires Valid()
      requires command.Some? && command.value.id !in reports ==> |queue| < configuration.channelCapacity
      modifies this, authManager
      ensures Valid()
      ensures pending == old(pending)
      ensures command.None? ==> r == Err(ArgumentNull)
      ensures command.Some? && command.value.id in old(reports) ==> r == Err(InvalidOperation)
      ensures r.Err? ==>
        reports == old(reports) && queue == old(queue) && authManager.access == old(authManager.access)
      ensures command.Some? && command.value.id !in old(reports) ==>
        var c := command.value;
        && r == Ok(c.id)
        && reports.Keys == old(reports).Keys + {c.id}
        && (forall id :: id in old(reports) ==> reports[id] == old(reports)[id])
        && fresh(reports[c.id])
        && reports[c.id].command == c && reports[c.id].status == Queued && reports[c.id].result == None
        && authManager.access == Bound(old(authManager.access), c.key, c.id)
        && queue == old(queue) + [c]
    {
      if command.None? {
        return Err(ArgumentNull);
      }
      var c := command.value;
      if c.id in reports {
        return Err(InvalidOperation);
      }
      Register(c);
      r := Ok(c.id);
    }

    /**
     * The successful path of Enqueue for a command with a fresh identifier.
     * The program files the report before binding the key; both happen in
     * this one step, so their order is not observable here.
     */
    method Register(c: Command)
      requires Valid() && c.id !in reports && |queue| < configuration.channelCapacity
      modifies this, authManager
      ensures Valid()
      ensures pending == old(pending)
      ensures reports.Keys == old(reports).Keys + {c.id}
      ensures forall id :: id in old(reports) ==> reports[id] == old(reports)[id]
      ensures fresh(reports[c.id])
      ensures reports[c.id].command == c && reports[c.id].status == Queued && reports[c.id].result == None
      ensures authManager.access == Bound(old(authManager.access), c.key, c.id)
      ensures queue == old(queue) + [c]
    {
      authManager.Bind(c.key, c.id);
      forall id | id in reports
        ensures authManager.HasAccess(reports[id].command.key, id)
      {
        BindMonotone(old(authManager.access), c.key, c.id, reports[id].command.key, id);
      }
      FileAndWrite(c);
    }

    /** Files a Queued report for c and writes c into the queue. */
    method FileAndWrite(c: Command)
      requires Valid() && c.id !in reports && |queue| < configuration.channelCapacity
      requires authManager.HasAccess(c.key, c.id)
      modifies this
      ensures Valid()
      ensures pending == old(pending)
      ensures reports.Keys == old(reports).Keys + {c.id}
      ensures forall id :: id in old(reports) ==> reports[id] == old(reports)[id]
      ensures fresh(reports[c.id])
      ensures reports[c.id].command == c && reports[c.id].status == Queued && reports[c.id].result == None
      ensures queue == old(queue) + [c]
    {
      var report := new CommandExecutionReport(c);
      reports := reports[c.id := report];
      queue := queue + [c];
    }

    /** The report registered for `id`, or null when there is none. */
    method GetCommandExecutionReport(id: Guid) returns (report: CommandExecutionReport?)
      ensures id in reports ==> report == reports[id]
      ensures id !in reports ==> report == null
    {
      report := null;
      if id in reports {
        report := reports[id];
      }
    }

    /**
     * One iteration of the dispatch loop: reads the oldest command. A
     * SolveCaptcha is marked Processing and its solve is started; when
     * starting throws, the report is marked Error instead. Any other command
     * is dropped with its report untouched.
     */
    method StartNext(startFaults: bool) returns (command: Command)
      requires Valid() && |queue| > 0
      modifies this, reports.Values
      ensures Valid()
      ensures command == old(queue[0]) && queue == old(queue[1..])
      ensures reports == old(reports)
      ensures command.id in reports
      ensures reports[command.id].status == StartedStatus(command, startFaults, old(reports[command.id].status))
      ensures forall id :: id in reports ==>
        reports[id].result == old(reports[id].result)
        && MayFollow(old(reports[id].status), reports[id].status)
        && (id != command.id ==> reports[id].status == old(reports[id].status))
      ensures pending == if command.SolveCaptcha? && !startFaults then old(pending) + {command.id} else old(pending)
    {
      command := queue[0];
      queue := queue[1..];
      if command.SolveCaptcha? {
        var report := reports[command.id];
        report.status := Processing;
        if startFaults {
          report.status := Error;
        } else {
          pending := pending + {command.id};
        }
      }
    }

    /**
     * The continuation of a started solve. A returned string sets Success when
     * it is non-empty and Failed otherwise, and becomes the result. A solve that
     * throws faults the continuation itself, so nothing is recorded and the
     * report stays Processing.
     */
    method CompleteSolve(id: Guid, outcome: SolveOutcome)
      requires Valid() && id in pending
      modifies this, reports.Values
      ensures Valid()
      ensures pending == old(pending) - {id}
      ensures queue == old(queue) && reports == old(reports)
      ensures outcome.Returned? ==>
        reports[id].status == CompletedStatus(outcome.result) && reports[id].result == outcome.result
      ensures outcome.Faulted? ==> reports[id].status == Processing && reports[id].result == None
      ensures forall x :: x in reports ==>
        MayFollow(old(reports[x].status), reports[x].status)
        && (x != id ==> reports[x].status == old(reports[x].status) && reports[x].result == old(reports[x].result))
    {
      pending := pending - {id};
      if outcome.Returned? {
        var report := reports[id];
        report.status := CompletedStatus(outcome.result);
        report.result := outcome.result;
      }
    }
  }
}
