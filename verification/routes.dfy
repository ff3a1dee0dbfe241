/** The entities of internal/routing/types.go that the rest of the project shares. */
module RouteModel {

  datatype SourceKind = ComposeLabels | NameOfContainer

  datatype Candidate = Candidate(containerId: string, containerName: string, project: string, service: string,
                                 source: SourceKind, labels: map<string, string>)

  datatype Upstream = Upstream(host: string, port: int, scheme: string)

  datatype Route = Route(hostname: string, domains: seq<string>, servedHostnames: seq<string>,
                         winner: Candidate, upstream: Upstream, priority: int, portSource: string)

  datatype Warning = Warning(code: string, message: string, container: string, field: string,
                             severity: string, source: string)

  datatype Conflict = Conflict(hostname: string, winner: Candidate, losers: seq<Candidate>,
                               reason: string, priorityTie: bool)

  // The version is the number in "snapshot-<n>"; createdAt is an opaque clock tick.
  datatype Snapshot = Snapshot(version: nat, createdAt: nat, routes: map<string, Route>,
                               warnings: seq<Warning>, conflicts: seq<Conflict>)
}
