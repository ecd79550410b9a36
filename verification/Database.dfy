/** How a statement can fail. */
module Database {
  /** A statement may fail to reach the database, unless the database is healthy. */
  method Reach(healthy: bool) returns (ok: bool)
    ensures healthy ==> ok
  {
    ok := *;
    ok := ok || healthy;
  }
}
