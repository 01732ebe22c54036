/** The database a request handler works on: one sequence per table, in
    stored order. A handler reads the tables, decides, and then reassigns
    the tables it changes; the `Tables` value is a snapshot of all of
    them, which the pure checks take as input. */
module Session {
  import opened Models

  datatype Tables = Tables(
    animals: seq<Animal>,
    events: seq<Event>,
    eventTypes: seq<EventType>,
    links: seq<AnimalEvent>,
    userLinks: seq<UserEvent>,
    audits: seq<AnimalAudit>,
    healthLogs: seq<HealthLog>,
    comments: seq<EventComment>,
    users: seq<User>,
    roles: seq<Role>,
    permissions: seq<Permission>)

  class Store {
    var animals: seq<Animal>
    var events: seq<Event>
    var eventTypes: seq<EventType>
    var links: seq<AnimalEvent>
    var userLinks: seq<UserEvent>
    var audits: seq<AnimalAudit>
    var healthLogs: seq<HealthLog>
    var comments: seq<EventComment>
    var users: seq<User>
    var roles: seq<Role>
    var permissions: seq<Permission>

    /** An empty database. */
    constructor ()
      ensures Snapshot() == Tables([], [], [], [], [], [], [], [], [], [], [])
    {
      animals, events, eventTypes, links, userLinks := [], [], [], [], [];
      audits, healthLogs, comments, users, roles, permissions := [], [], [], [], [], [];
    }

    function Snapshot(): Tables
      reads this
    {
      Tables(animals, events, eventTypes, links, userLinks, audits, healthLogs,
             comments, users, roles, permissions)
    }
  }
}
