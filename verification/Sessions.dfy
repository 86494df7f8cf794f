/** src/hosts.rs, src/proto.rs: machines under their two spellings, and the sessions on them. */
module Sessions {

  const LOCAL := "local"

  /** This machine's own short name, whatever it is. */
  const THIS_MACHINE: string

  predicate IsThisMachine(name: string) {
    name == LOCAL || name == THIS_MACHINE
  }

  predicate SameMachine(named: string, at: string) {
    named == at || (IsThisMachine(named) && IsThisMachine(at))
  }

  /** A machine under the one name listings give it. */
  function AsListed(host: string): (listed: string)
    ensures SameMachine(listed, host)
  {
    if IsThisMachine(host) then THIS_MACHINE else host
  }

  /** What a node says of a session; `started` is in nanoseconds from the epoch. */
  datatype SessionInfo = SessionInfo(name: string, pid: nat, started: int, node: string)

  datatype HostedSession = HostedSession(host: string, session: SessionInfo)

  /** A session's address. */
  datatype Located = Located(host: string, session: string)

  function At(row: HostedSession): Located {
    Located(row.host, row.session.name)
  }
}
