/**
  The remote-execution side that `fabric.api` stands for: `fa.sudo` runs a
  command as root and reports whether it succeeded, `fa.put` uploads a file.
  The model records each effect, in order, and takes the hosts' answers as
  a parameter.
 */
module Remote {

  datatype Effect = Sudo(command: string) | Put(path: string, contents: string)

  /** One `fa.sudo(cmd)` per command, in order. */
  function Sudos(cmds: seq<string>): seq<Effect> {
    seq(|cmds|, i requires 0 <= i < |cmds| => Sudo(cmds[i]))
  }

  lemma SudosAppend(cmds: seq<string>, c: string)
    ensures Sudos(cmds + [c]) == Sudos(cmds) + [Sudo(c)]
  {
  }

  /** The remote hosts, as far as the model needs them: the commands that fail there. */
  datatype Hosts = Hosts(failing: set<string>)

  /** The `.succeed` flag of `fa.sudo(command)`. */
  predicate Succeeds(hosts: Hosts, command: string) {
    command !in hosts.failing
  }
}
