/** The process environment that `sh -c` commands run in. */
module Process {

  /** One command issued to the shell, with the `KUBECONFIG` path it is given
      as its only environment override. */
  datatype Invocation = Invocation(kubeConfig: string, cmd: string)

  /** What `Command::output` reports: the process could not be spawned, or it
      exited with a status and wrote `stdout`. stderr is only mirrored for
      diagnostics and is not part of the outcome. */
  datatype Output = SpawnFailed | Exited(success: bool, stdout: string)

  /** The shell, seen from the engine: every command it is asked to run is
      recorded in order, and `respond` says how a command turns out given what
      was run before it. */
  class Shell {
    var issued: seq<Invocation>
    const respond: (seq<Invocation>, Invocation) -> Output

    constructor (respond: (seq<Invocation>, Invocation) -> Output)
      ensures this.respond == respond
      ensures issued == []
    {
      this.respond := respond;
      issued := [];
    }

    /** Runs one command. */
    method Exec(inv: Invocation) returns (o: Output)
      modifies this
      ensures issued == old(issued) + [inv]
      ensures o == respond(old(issued), inv)
    {
      o := respond(issued, inv);
      issued := issued + [inv];
    }
  }
}
