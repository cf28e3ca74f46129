/** The `Project` record ("mission") that both the list handler and the
    create handler work on, and the statuses the create handler writes. */
module Missions {
  import opened Common

  /** The statuses written by server/src/routes/projectRoutes.js:160, 150 and 214. */
  const Initializing := "Initializing..."
  const Completed := "Completed"
  const DemoMode := "Demo Mode"
  const Failed := "Failed"

  /** One row of the `Project` table. `report` and `embedding` are NULL
      until the background task writes them. */
  datatype Mission = Mission(
    id: MissionId,
    owner: UserId,
    title: string,
    status: string,
    report: Option<string>,
    embedding: Option<Vector>,
    createdAt: int)

  /** The states the create handler and its background task can leave a row
      in: a draft has neither report nor embedding, a finished row has a
      report, and only a successful run stores an embedding. */
  predicate WellFormed(m: Mission) {
    && m.status in {Initializing, Completed, DemoMode, Failed}
    && (m.status == Initializing <==> m.report.None? && m.embedding.None?)
    && (m.status != Initializing ==> m.report.Some?)
    && (m.embedding.Some? ==> m.status == Completed || m.status == DemoMode)
  }

  /** The row `prisma.project.create` inserts for a new mission. */
  function Draft(id: MissionId, owner: UserId, title: string, now: int): (m: Mission)
    ensures WellFormed(m)
    ensures m.status == Initializing && m.report.None? && m.embedding.None?
    ensures m.id == id && m.owner == owner && m.title == title && m.createdAt == now
  {
    Mission(id, owner, title, Initializing, None, None, now)
  }
}
