/** A database connection as the services drive it through psycopg2. The
    database's answers come from the callers' scripted outcomes; what the
    connection keeps is the ordered record of what it was asked to do. */
module Db {
  import opened PyData

  /** A value bound to a `%s` placeholder. `JsonText(v)` stands for the
      string `json.dumps(v)`. */
  datatype Param = Bound(v: Value) | JsonText(v: Value)

  /** One request made on the connection or on a cursor opened from it. */
  datatype Event =
    | Executed(sql: string, params: seq<Param>)  // cursor.execute
    | Fetched                                    // cursor.fetchall / cursor.fetchone
    | Committed                                  // conn.commit
    | RolledBack                                 // conn.rollback
    | Closed                                     // conn.close

  class Connection {
    /** Every request made so far, oldest first. */
    var log: seq<Event>

    constructor ()
      ensures log == []
    {
      log := [];
    }

    /** psycopg2 refuses statements, commits and rollbacks on a closed connection. */
    predicate IsOpen()
      reads this
    {
      Closed !in log
    }

    method Execute(sql: string, params: seq<Param>)
      requires IsOpen()
      modifies this
      ensures log == old(log) + [Executed(sql, params)]
    {
      log := log + [Executed(sql, params)];
    }

    method Fetch()
      requires IsOpen()
      modifies this
      ensures log == old(log) + [Fetched]
    {
      log := log + [Fetched];
    }

    method Commit()
      requires IsOpen()
      modifies this
      ensures log == old(log) + [Committed]
    {
      log := log + [Committed];
    }

    method Rollback()
      requires IsOpen()
      modifies this
      ensures log == old(log) + [RolledBack]
    {
      log := log + [RolledBack];
    }

    method Close()
      modifies this
      ensures log == old(log) + [Closed]
    {
      log := log + [Closed];
    }
  }
}
