/** The per-command execution report kept by the command manager. */
module Reports {
  import opened Common
  import opened Models

  /**
   * A mutable record: the command is fixed at construction, status and result
   * are assigned by the command manager as the command is processed.
   */
  class CommandExecutionReport
  {
    const command: Command
    var status: CommandExecutionStatus
    var result: Option<string>

    constructor (command: Command)
      ensures this.command == command
      ensures status == Queued
      ensures result == None
    {
      this.command := command;
      status := Queued;
      result := None;
    }
  }
}
