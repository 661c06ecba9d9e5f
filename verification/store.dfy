/** The persistence contract: three tables, each statement atomic and able to fail. */
module Store {
  import opened Basics
  import opened Errors
  import opened Backoff

  datatype Metric = Metric(
    name: Bytes, window: Bytes, unit: Bytes, used: int64,
    limit: Option<int64>, remaining: Option<int64>, resetAt: Option<Time>)

  datatype Snapshot = Snapshot(providerId: Bytes, metrics: seq<Metric>, collectedAt: Time, lastError: Option<Bytes>)

  datatype Row = Row(id: Bytes, enabled: bool)

  type Rows = map<Bytes, bool>
  type Creds = map<(Bytes, Bytes), Bytes>
  type Snaps = map<Bytes, Snapshot>

  datatype Tables = Tables(rows: Rows, creds: Creds, snaps: Snaps)

  /** The driver error of an INSERT that violates the primary key. */
  const CONSTRAINT_VIOLATION := 19

  function GetRow(rows: Rows, id: Bytes, fault: Fault): Result<Row, Error> {
    if fault.Some? then Err(StoreError(fault.value))
    else if id !in rows then Err(NotFound)
    else Ok(Row(id, rows[id]))
  }

  function CreateRow(rows: Rows, id: Bytes, enabled: bool, fault: Fault): Result<Rows, Error> {
    if fault.Some? then Err(StoreError(fault.value))
    else if id in rows then Err(StoreError(CONSTRAINT_VIOLATION))
    else Ok(rows[id := enabled])
  }

  function UpdateRow(rows: Rows, id: Bytes, enabled: bool, fault: Fault): Result<Rows, Error> {
    if fault.Some? then Err(StoreError(fault.value))
    else if id !in rows then Err(NotFound)
    else Ok(rows[id := enabled])
  }

  function GetBlob(creds: Creds, id: Bytes, field: Bytes, fault: Fault): Result<Bytes, Error> {
    if fault.Some? then Err(StoreError(fault.value))
    else if (id, field) !in creds then Err(NotFound)
    else Ok(creds[(id, field)])
  }

  /** The fields of one provider that have a stored value. */
  function StoredFields(creds: Creds, id: Bytes): set<Bytes> {
    set k | k in creds && k.0 == id :: k.1
  }

  function WithoutProvider(creds: Creds, id: Bytes): Creds {
    map k | k in creds && k.0 != id :: creds[k]
  }

  function FindSnapshot(snaps: Snaps, id: Bytes, fault: Fault): Result<Snapshot, Error> {
    if fault.Some? then Err(StoreError(fault.value))
    else if id !in snaps then Err(NotFound)
    else Ok(snaps[id])
  }

  /**
    What the next read of a row shows after an attempt to create or update one: the row as written if the attempt
    succeeded, which only a missing (or, for an update, an existing) row allows, and every other row as before. A failed
    statement returns its driver error, a violated primary key one of its own.
  */
  lemma RowReadsSeeWrites(rows: Rows, id: Bytes, enabled: bool, fault: Fault, other: Bytes)
    ensures var created := CreateRow(rows, id, enabled, fault);
      && (created.Ok? <==> fault.None? && GetRow(rows, id, None) == Err(NotFound))
      && (fault.Some? ==> created == Err(Wrapped(Other(fault.value))))
      && (fault.None? && created.Err? ==> created == Err(StoreError(CONSTRAINT_VIOLATION)))
      && (created.Ok? ==>
            GetRow(created.value, other, None)
              == if other == id then Ok(Row(id, enabled)) else GetRow(rows, other, None))
    ensures var updated := UpdateRow(rows, id, enabled, fault);
      && (updated.Ok? <==> fault.None? && GetRow(rows, id, None).Ok?)
      && (updated == Err(NotFound) <==> fault.None? && GetRow(rows, id, None) == Err(NotFound))
      && (fault.Some? ==> updated == Err(Wrapped(Other(fault.value))))
      && (updated.Ok? ==>
            GetRow(updated.value, other, None)
              == if other == id then Ok(Row(id, enabled)) else GetRow(rows, other, None))
  {
  }

  /** What the next read of a secret shows after an upsert, and after a provider's secrets were deleted. */
  lemma SecretReadsSeeWrites(creds: Creds, id: Bytes, field: Bytes, blob: Bytes, k: (Bytes, Bytes))
    ensures GetBlob(creds[(id, field) := blob], k.0, k.1, None)
      == if k == (id, field) then Ok(blob) else GetBlob(creds, k.0, k.1, None)
    ensures GetBlob(WithoutProvider(creds, id), k.0, k.1, None)
      == if k.0 == id then Err(NotFound) else GetBlob(creds, k.0, k.1, None)
    ensures k.1 in StoredFields(creds, k.0) <==> GetBlob(creds, k.0, k.1, None).Ok?
  {
  }

  /** A provider's snapshot reads as last replaced, with its last error cleared, and only that provider's. */
  lemma SnapshotReadsSeeReplaces(snaps: Snaps, id: Bytes, metrics: seq<Metric>, at: Time, other: Bytes)
    ensures var after := snaps[id := Snapshot(id, metrics, at, None)];
      && FindSnapshot(after, id, None).Ok? && FindSnapshot(after, id, None).value.metrics == metrics
      && FindSnapshot(after, id, None).value.collectedAt == at && FindSnapshot(after, id, None).value.lastError.None?
      && (other != id ==> FindSnapshot(after, other, None) == FindSnapshot(snaps, other, None))
  {
  }

  /** s holds every row of the table, in some order. */
  ghost predicate Enumerates(s: seq<Row>, rows: Rows) {
    && (forall i :: 0 <= i < |s| ==> s[i].id in rows && rows[s[i].id] == s[i].enabled)
    && (forall id :: id in rows ==> Row(id, rows[id]) in s)
  }

  class Repository {
    var rows: Rows
    var creds: Creds
    var snaps: Snaps

    constructor ()
      ensures Contents() == Tables(map[], map[], map[])
    {
      rows, creds, snaps := map[], map[], map[];
    }

    ghost function Contents(): Tables
      reads this
    {
      Tables(rows, creds, snaps)
    }

    method List(fault: Fault) returns (r: Result<seq<Row>, Error>)
      ensures fault.Some? ==> r == Err(StoreError(fault.value))
      ensures fault.None? ==> r.Ok? && Enumerates(r.value, rows)
    {
      if fault.Some? {
        return Err(StoreError(fault.value));
      }
      var out: seq<Row> := [];
      var todo := rows.Keys;
      while todo != {}
        invariant todo <= rows.Keys
        invariant forall i :: 0 <= i < |out| ==> out[i].id in rows && rows[out[i].id] == out[i].enabled
        invariant forall id :: id in rows && id !in todo ==> Row(id, rows[id]) in out
        decreases todo
      {
        var id :| id in todo;
        var row := Row(id, rows[id]);
        assert row in out + [row];
        out, todo := out + [row], todo - {id};
      }
      return Ok(out);
    }

    method Get(id: Bytes, fault: Fault) returns (r: Result<Row, Error>)
      ensures fault.Some? ==> r == Err(StoreError(fault.value))
      ensures fault.None? && id !in rows ==> r == Err(NotFound)
      ensures fault.None? && id in rows ==> r == Ok(Row(id, rows[id]))
    {
      if fault.Some? {
        return Err(StoreError(fault.value));
      }
      if id !in rows {
        return Err(NotFound);
      }
      return Ok(Row(id, rows[id]));
    }

    method Create(id: Bytes, enabled: bool, fault: Fault) returns (err: Option<Error>)
      modifies this`rows
      ensures var r := CreateRow(old(rows), id, enabled, fault);
        if r.Ok? then err == None && rows == r.value else err == Some(r.error) && rows == old(rows)
    {
      var r := CreateRow(rows, id, enabled, fault);
      if r.Err? {
        return Some(r.error);
      }
      rows := r.value;
      return None;
    }

    method SetEnabled(id: Bytes, enabled: bool, fault: Fault) returns (err: Option<Error>)
      modifies this`rows
      ensures var r := UpdateRow(old(rows), id, enabled, fault);
        if r.Ok? then err == None && rows == r.value else err == Some(r.error) && rows == old(rows)
    {
      var r := UpdateRow(rows, id, enabled, fault);
      if r.Err? {
        return Some(r.error);
      }
      rows := r.value;
      return None;
    }

    method Upsert(id: Bytes, field: Bytes, ciphertext: Bytes, fault: Fault) returns (err: Option<Error>)
      modifies this`creds
      ensures fault.Some? ==> err == Some(StoreError(fault.value)) && creds == old(creds)
      ensures fault.None? ==> err == None && creds == old(creds)[(id, field) := ciphertext]
    {
      if fault.Some? {
        return Some(StoreError(fault.value));
      }
      creds := creds[(id, field) := ciphertext];
      return None;
    }

    method Presence(id: Bytes, fault: Fault) returns (r: Result<set<Bytes>, Error>)
      ensures r == if fault.Some? then Err(StoreError(fault.value)) else Ok(StoredFields(creds, id))
    {
      if fault.Some? {
        return Err(StoreError(fault.value));
      }
      return Ok(StoredFields(creds, id));
    }

    method GetSecret(id: Bytes, field: Bytes, fault: Fault) returns (r: Result<Bytes, Error>)
      ensures fault.Some? ==> r == Err(StoreError(fault.value))
      ensures fault.None? && (id, field) !in creds ==> r == Err(NotFound)
      ensures fault.None? && (id, field) in creds ==> r == Ok(creds[(id, field)])
    {
      if fault.Some? {
        return Err(StoreError(fault.value));
      }
      if (id, field) !in creds {
        return Err(NotFound);
      }
      return Ok(creds[(id, field)]);
    }

    method Delete(id: Bytes, fault: Fault) returns (err: Option<Error>)
      modifies this`creds
      ensures fault.Some? ==> err == Some(StoreError(fault.value)) && creds == old(creds)
      ensures fault.None? ==> err == None && creds == WithoutProvider(old(creds), id)
    {
      if fault.Some? {
        return Some(StoreError(fault.value));
      }
      creds := WithoutProvider(creds, id);
      return None;
    }

    method Replace(id: Bytes, metrics: seq<Metric>, collectedAt: Time, fault: Fault) returns (err: Option<Error>)
      modifies this`snaps
      ensures fault.Some? ==> err == Some(StoreError(fault.value)) && snaps == old(snaps)
      ensures fault.None? ==> err == None && snaps == old(snaps)[id := Snapshot(id, metrics, collectedAt, None)]
    {
      if fault.Some? {
        return Some(StoreError(fault.value));
      }
      snaps := snaps[id := Snapshot(id, metrics, collectedAt, None)];
      return None;
    }

    method GetSnapshot(id: Bytes, fault: Fault) returns (r: Result<Snapshot, Error>)
      ensures fault.Some? ==> r == Err(StoreError(fault.value))
      ensures fault.None? && id !in snaps ==> r == Err(NotFound)
      ensures fault.None? && id in snaps ==> r == Ok(snaps[id])
    {
      if fault.Some? {
        return Err(StoreError(fault.value));
      }
      if id !in snaps {
        return Err(NotFound);
      }
      return Ok(snaps[id]);
    }
  }
}
