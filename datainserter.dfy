/** `insertDataToSnowflake` (src/services/dataInserter.ts): the older copy of
    `batchInsert`. Its guard, its statements and its loop are those of `batchInsert`, so
    it sends exactly the statements `BatchInsertService.BatchStatements` describes. */
module DataInserter {
  import opened Wrappers
  import opened Records
  import opened Sql
  import opened Snowflake
  import BatchInsertService

  /** `insertDataToSnowflake(data, tableName, batchSize)`: nothing for empty input,
      otherwise create-if-missing with the first row's keys and one multi-row INSERT per
      slice of `batchSize` rows; the first failure is passed on and earlier batches stay. */
  method InsertDataToSnowflake(conn: Connection, data: seq<Record>, name: string, size: nat)
    returns (r: Outcome<Stmt>)
    requires size > 0
    modifies conn
    ensures conn.Ran(old(conn.tables), old(conn.log), BatchInsertService.BatchStatements(data, name, size), r.Fail?)
    ensures r.Fail? ==> r.error in BatchInsertService.BatchStatements(data, name, size)
    ensures r.Fail? ==> conn.SentLast(r.error)
  {
    r := BatchInsertService.BatchInsert(conn, data, name, size);
  }
}
