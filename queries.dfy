/**
  The sensor query handlers' row mapping: every row read from a node's table is
  returned with that node's two current relay entries attached.
 */
module Queries {

  import opened JsValues
  import opened Relays

  /** A row of a node's sensor table, as the database returns it. */
  datatype SensorRow = SensorRow(id: Value, mq2: Value, flame: Value, temp: Value, hum: Value, timestamp: Value)

  /** A returned row: the stored columns plus `relay` (channel 1) and `relay2` (channel 2). */
  datatype Reading = Reading(id: Value, mq2: Value, flame: Value, temp: Value, hum: Value, timestamp: Value,
                             relay: Value, relay2: Value)

  /** The stored columns of a returned row. */
  function Stored(r: Reading): SensorRow {
    SensorRow(r.id, r.mq2, r.flame, r.temp, r.hum, r.timestamp)
  }

  /** `results.map(row => ({ ...row columns, relay, relay2 }))`. */
  function WithRelays(rows: seq<SensorRow>, relay: Value, relay2: Value): (out: seq<Reading>)
    ensures |out| == |rows|
    ensures forall i :: 0 <= i < |out| ==>
      Stored(out[i]) == rows[i] && out[i].relay == relay && out[i].relay2 == relay2
  {
    if rows == [] then []
    else
      var row := rows[0];
      [Reading(row.id, row.mq2, row.flame, row.temp, row.hum, row.timestamp, relay, relay2)]
        + WithRelays(rows[1..], relay, relay2)
  }

  /** A node's rows with that node's mist entry as `relay` and pump entry as `relay2`. */
  function NodeReadings(t: RelayStates, n: Node, rows: seq<SensorRow>): seq<Reading> {
    WithRelays(rows, Get(t, Slot(n, Mist)), Get(t, Slot(n, Pump)))
  }

  /** What a query reported: the rows, or a database error. */
  datatype DbResult = DbRows(rows: seq<SensorRow>) | DbError

  /** A single-node query's response: HTTP 200 with the rows, or 500 on a database error. */
  datatype NodeResponse = NodeRows(readings: seq<Reading>) | NodeDbError {
    function StatusCode(): int {
      if NodeRows? then 200 else 500
    }
  }

  /** `/api/sensors/all`: both nodes' rows, or the error of whichever query failed first. */
  datatype AllResponse = AllRows(node1: seq<Reading>, node2: seq<Reading>) | Node1DbError | Node2DbError {
    function StatusCode(): int {
      if AllRows? then 200 else 500
    }
  }
}
