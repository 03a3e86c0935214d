/** The execution report of the older task manager, with its derived success flag. */
module LegacyReports {
  import opened Common
  import opened Models

  class CommandExecutionReport
  {
    const command: Command
    var status: CommandExecutionStatus
    var result: Option<string>

    constructor (command: Command)
      ensures this.command == command
      ensures status == Queued
      ensures result == None
      ensures !Succeeded()
    {
      this.command := command;
      status := Queued;
      result := None;
    }

    /** The report's derived `Success` property. */
    predicate Succeeded()
      reads this
    {
      status == Success
    }
  }
}
