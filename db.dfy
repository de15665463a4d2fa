/** The SQLite `files` table that the upload handler writes and the
    retrieval handlers read (server/db/db.js). */
module Db {
  import opened Wrappers

  /** Milliseconds since the epoch. The `expires_at` column stores the
      ISO-8601 rendering of one, which parses back to the same instant. */
  type Timestamp = int

  /** A stored row. `id` is the primary key and `code` is declared NOT NULL,
      so both are plain strings; the other four columns are nullable. */
  datatype Row = Row(
    id: string,
    code: string,
    originalName: Option<string>,
    cloudinaryUrl: Option<string>,
    publicId: Option<string>,
    expiresAt: Option<Timestamp>)

  /** The six values bound to `INSERT INTO files (...) VALUES (?, ?, ?, ?, ?, ?)`.
      Any of them except the key may be bound to NULL. */
  datatype Insertion = Insertion(
    id: string,
    code: Option<string>,
    originalName: Option<string>,
    cloudinaryUrl: Option<string>,
    publicId: Option<string>,
    expiresAt: Option<Timestamp>)

  /** Why SQLite refuses a statement. */
  datatype SqlError = NoSuchTable | NotNullViolation | PrimaryKeyViolation

  /** What `db.get(SELECT * FROM files WHERE id = ?)` hands its callback:
      an error, no row, or the row. */
  datatype Lookup = QueryFailed(error: SqlError) | NoRow | Found(row: Row)

  /** The contents of the table, indexed by primary key. */
  type Rows = map<string, Row>

  /** Every row sits under its own `id`: the primary key identifies it. */
  ghost predicate KeyedById(rows: Rows) {
    forall id :: id in rows ==> rows[id].id == id
  }

  /** The row SQLite stores for an insertion whose `code` is not NULL. */
  function Stored(ins: Insertion): Row
    requires ins.code.Some?
  {
    Row(ins.id, ins.code.value, ins.originalName, ins.cloudinaryUrl, ins.publicId, ins.expiresAt)
  }

  /** The constraint an insertion violates against an existing table, if any:
      NOT NULL on `code` first, then uniqueness of the primary key `id`. */
  function Violation(rows: Rows, ins: Insertion): (e: Option<SqlError>)
    ensures e.None? <==> ins.code.Some? && ins.id !in rows
    ensures e.Some? ==> e.value != NoSuchTable
  {
    if ins.code.None? then Some(NotNullViolation)
    else if ins.id in rows then Some(PrimaryKeyViolation)
    else None
  }

  /** The table after the insertion: a refused statement leaves it as it was. */
  function AfterInsert(rows: Rows, ins: Insertion): (r: Rows)
    ensures ins.id in rows ==> r == rows
    ensures r.Keys == if ins.code.Some? then rows.Keys + {ins.id} else rows.Keys
    ensures ins.id !in rows && ins.code.Some? ==> r[ins.id] == Stored(ins)
  {
    if Violation(rows, ins).None? then rows[ins.id := Stored(ins)] else rows
  }

  /** An insertion never changes or removes an existing row, and keeps every
      row under its own id. */
  lemma InsertKeepsRows(rows: Rows, ins: Insertion)
    ensures forall id :: id in rows ==> id in AfterInsert(rows, ins) && AfterInsert(rows, ins)[id] == rows[id]
    ensures KeyedById(rows) ==> KeyedById(AfterInsert(rows, ins))
  {
  }

  /** `SELECT * FROM files WHERE id = ?` as the callback sees it. */
  function SelectById(created: bool, rows: Rows, id: string): (l: Lookup)
    ensures l.Found? <==> created && id in rows
    ensures l.Found? ==> l.row == rows[id]
    ensures l.QueryFailed? <==> !created
  {
    if !created then QueryFailed(NoSuchTable)
    else if id in rows then Found(rows[id])
    else NoRow
  }

  /** The database file `./files.db`: whether it holds the `files` table
      yet, and the rows of that table. */
  class FilesTable {
    var created: bool
    var rows: Rows

    ghost predicate Valid()
      reads this
    {
      KeyedById(rows) && (!created ==> rows == map[])
    }

    /** Opening the database file, which may already hold a `files` table
        from an earlier run of the server. */
    constructor Open(existing: Option<Rows>)
      requires existing.Some? ==> KeyedById(existing.value)
      ensures Valid()
      ensures created == existing.Some?
      ensures rows == if existing.Some? then existing.value else map[]
    {
      created := existing.Some?;
      rows := if existing.Some? then existing.value else map[];
    }

    /** `CREATE TABLE IF NOT EXISTS files (...)`: an existing table and its
        rows are left alone. */
    method CreateIfNotExists()
      requires Valid()
      modifies this
      ensures Valid() && created
      ensures old(created) ==> rows == old(rows)
      ensures !old(created) ==> rows == map[]
    {
      if !created {
        created := true;
        rows := map[];
      }
    }

    /** One `INSERT INTO files` statement. `err` is what the statement's
        callback receives; the table changes only when it is None. */
    method Insert(ins: Insertion) returns (err: Option<SqlError>)
      requires Valid()
      modifies this
      ensures Valid() && created == old(created)
      ensures !created ==> err == Some(NoSuchTable) && rows == old(rows)
      ensures created ==> err == Violation(old(rows), ins) && rows == AfterInsert(old(rows), ins)
    {
      if !created {
        err := Some(NoSuchTable);
      } else {
        err := Violation(rows, ins);
        InsertKeepsRows(rows, ins);
        rows := AfterInsert(rows, ins);
      }
    }
  }
}
