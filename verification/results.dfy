/**
 Result sets. `mysql_use_result` binds the columns and streams rows straight
 from the driver, counting them; `mysql_store_result` binds the columns, then
 fetches every row into a list and walks it with a cursor. Both share the
 field schema with the connection, and a field cursor walks that schema.
 */
module Results {
  import opened Base
  import opened Header
  import opened Connection
  import opened Query

  /** `unsigned int` arithmetic wraps modulo 2^32. */
  const UINT_MODULUS: nat := 0x1_0000_0000

  /** Bytes added to a column's width to size its bound row buffer. */
  const ROW_BUFFER_SLACK: nat := 32

  /** `MYSQL_RES`. `data` is the list of stored rows of a buffered result,
      `None` for a streaming one; `cursor` is `data_cursor`, the index of the
      next stored row to hand out, `None` for NULL; `rowBuffer` says whether
      `current_row`, the row array a streaming fetch fills in, is allocated. */
  datatype Res = Res(
    rowCount: nat,
    currentField: nat,
    fields: seq<Field>,
    data: Option<seq<Row>>,
    cursor: Option<nat>,
    eof: bool,
    rowBuffer: bool)

  /** The data cursor is NULL or points at a stored row. */
  predicate ValidCursor(r: Res) {
    r.cursor.Some? ==> r.data.Some? && r.cursor.value < |r.data.value|
  }

  /** The data cursor on stored row `k` of `n`: NULL once past the last. */
  function CursorAt(k: nat, n: nat): Option<nat> {
    if k < n then Some(k) else None
  }

  /** A connection after a call that may hand out a result (`None` is NULL). */
  datatype Allocated = Allocated(conn: Conn, res: Option<Res>)

  /** `max_length` as `_alloc_res` sets it: the width plus the slack, in
      `unsigned int`. */
  function BufferSize(f: Field): (r: nat)
    ensures r < UINT_MODULUS
    ensures f.length + ROW_BUFFER_SLACK < UINT_MODULUS ==> r == f.length + ROW_BUFFER_SLACK
  {
    (f.length + ROW_BUFFER_SLACK) % UINT_MODULUS
  }

  /** The schema once the buffers of its first `k` columns were sized. */
  function SizeBuffers(fs: seq<Field>, k: nat): (r: seq<Field>)
    ensures |r| == |fs|
    ensures forall j :: 0 <= j < |fs| && j < k ==> r[j] == fs[j].(maxLength := BufferSize(fs[j]))
    ensures forall j :: k <= j < |fs| ==> r[j] == fs[j]
  {
    seq(|fs|, j requires 0 <= j < |fs| => if j < k then fs[j].(maxLength := BufferSize(fs[j])) else fs[j])
  }

  /** `_alloc_res`. No schema means no result and no error. Otherwise the
      result is allocated (`resOk`) and then one row buffer per column, of
      which the first `buffers` allocations succeed; each column's
      `max_length` is set, in the schema the connection and the result share,
      just before its buffer is allocated. Any failure is an out-of-memory
      error. */
  function AllocRes(c: Conn, resOk: bool, buffers: nat): (a: Allocated)
    ensures a.conn.priv == c.priv && a.conn.affectedRows == c.affectedRows
    ensures |a.conn.fields| == |c.fields|
    ensures a.res.Some? <==> c.fields != [] && resOk && buffers >= |c.fields|
    ensures c.fields == [] || !resOk ==> a.conn.fields == c.fields
    ensures c.fields == [] ==> a.conn == c
    ensures c.fields != [] && a.res.None? ==> a.conn.errno == CR_OUT_OF_MEMORY
    ensures c.fields != [] && resOk && buffers < |c.fields| ==>
              a.conn.fields == SizeBuffers(c.fields, buffers + 1)
    ensures a.res.Some? ==>
              && a.conn == c.(fields := a.res.value.fields)
              && a.res.value.fields == SizeBuffers(c.fields, |c.fields|)
              && a.res.value == Res(0, 0, a.res.value.fields, None, None, false, false)
    ensures c.fields != [] && a.res.None? ==> a.conn.error == OUT_OF_MEMORY_TEXT
  {
    if c.fields == [] then Allocated(c, None)
    else if !resOk then Allocated(SetError(c, CR_OUT_OF_MEMORY), None)
    else if buffers < |c.fields| then
      Allocated(SetError(c.(fields := SizeBuffers(c.fields, buffers + 1)), CR_OUT_OF_MEMORY), None)
    else
      var fs := SizeBuffers(c.fields, |c.fields|);
      Allocated(c.(fields := fs), Some(Res(0, 0, fs, None, None, false, false)))
  }

  /** The first rejected code among `replies[i..n]`, or `n`. */
  function FirstRejected(replies: seq<Reply>, i: nat, n: nat): (m: nat)
    requires i <= n <= |replies|
    decreases n - i
    ensures i <= m <= n
    ensures forall j :: i <= j < m ==> Accepted(replies[j].rc)
    ensures m < n ==> !Accepted(replies[m].rc)
  {
    if i == n then n
    else if !Accepted(replies[i].rc) then i
    else FirstRejected(replies, i + 1, n)
  }

  /** The `SQLBindCol` loop over columns `i + 1 .. n`: each code is trapped and
      the first rejected one ends the loop with its error. */
  function BindColumns(c: Conn, binds: seq<Reply>, i: nat, n: nat): (t: Checked)
    requires c.priv.Some? && i <= n <= |binds|
    decreases n - i
    ensures t.ok <==> FirstRejected(binds, i, n) == n
    ensures t.ok ==> t.conn == c
    ensures !t.ok ==> t.conn == Trap(c, binds[FirstRejected(binds, i, n)]).conn
  {
    if i == n then Checked(c, true)
    else
      var t := Trap(c, binds[i]);
      if !t.ok then t else BindColumns(t.conn, binds, i + 1, n)
  }

  /** Whether `_alloc_res` hands out a result for `c`'s schema. */
  predicate Allocates(c: Conn, resOk: bool, buffers: nat) {
    c.fields != [] && resOk && buffers >= |c.fields|
  }

  /** Whether the result allocation and every bind of `c`'s schema succeed. */
  predicate Bound(c: Conn, resOk: bool, buffers: nat, binds: seq<Reply>)
    requires |binds| >= |c.fields|
  {
    Allocates(c, resOk, buffers) && FirstRejected(binds, 0, |c.fields|) == |c.fields|
  }

  /** The bind that fails first has its error reported. */
  predicate ReportsBindFailure(c: Conn, a: Conn, binds: seq<Reply>)
    requires c.priv.Some? && |binds| >= |c.fields|
  {
    var m := FirstRejected(binds, 0, |c.fields|);
    m < |c.fields| ==> Reports(a, c.priv.value, binds[m])
  }

  /** `_impl_use_result`: guard, allocate the result and the row handed to
      the caller (`rowOk`), bind every column. */
  function UseResult(c: Conn, resOk: bool, buffers: nat, rowOk: bool, binds: seq<Reply>): (a: Allocated)
    requires |binds| >= |c.fields|
    ensures a.res.Some? <==> Db(c).ok && Bound(c, resOk, buffers, binds) && rowOk
    ensures !Db(c).ok ==> a.conn == Db(c).conn
    ensures Db(c).ok && c.fields == [] ==> a.res.None? && a.conn.errno == 0
    ensures Db(c).ok && c.fields != [] && a.res.None? ==>
              a.conn.errno in {CR_OUT_OF_MEMORY, CR_SERVER_LOST, CR_ODBC_ERROR, CR_UNKNOWN_ERROR}
    ensures Db(c).ok && c.fields != [] && (!Allocates(c, resOk, buffers) || !rowOk) ==>
              a.conn.errno == CR_OUT_OF_MEMORY && a.conn.error == OUT_OF_MEMORY_TEXT
    ensures Db(c).ok && Allocates(c, resOk, buffers) && rowOk ==> ReportsBindFailure(c, a.conn, binds)
    ensures a.res.Some? ==>
              && a.conn.errno == 0 && a.conn.fields == a.res.value.fields
              && a.res.value == Res(0, 0, a.res.value.fields, None, None, false, true)
    ensures a.res.Some? ==> a.res.value.fields == SizeBuffers(c.fields, |c.fields|) && a.conn.priv == c.priv
    ensures a.conn.affectedRows == c.affectedRows
  {
    var g := Db(c);
    if !g.ok then Allocated(g.conn, None)
    else
      var a := AllocRes(g.conn, resOk, buffers);
      if a.res.None? then a
      else if !rowOk then Allocated(SetError(a.conn, CR_OUT_OF_MEMORY), None)
      else
        var t := BindColumns(a.conn, binds, 0, |a.conn.fields|);
        if !t.ok then
          TrapFailureIsReported(a.conn, binds[FirstRejected(binds, 0, |a.conn.fields|)]);
          Allocated(t.conn, None)
        else Allocated(t.conn, Some(a.res.value.(rowBuffer := true)))
  }

  /** The indicator value ODBC writes for a NULL column. */
  const SQL_NULL_DATA: int := -1

  /** What a fetch leaves for one bound column: the text in its buffer and
      the length or indicator word beside it. */
  datatype Cell = Cell(buf: CString, ind: int)

  /** The row entry for one column: NULL when the indicator is SQL_NULL_DATA,
      otherwise the buffer's text. */
  function Entry(cell: Cell): (e: Option<string>)
    ensures e.None? <==> cell.ind == SQL_NULL_DATA
    ensures e.Some? ==> e.value == cell.buf
  {
    if cell.ind == SQL_NULL_DATA then None else Some(cell.buf)
  }

  /** The row a fetch yields, column by column. */
  function RowOf(cells: seq<Cell>): (row: Row)
    ensures |row| == |cells|
    ensures forall k :: 0 <= k < |cells| ==> row[k] == Entry(cells[k])
  {
    seq(|cells|, k requires 0 <= k < |cells| => Entry(cells[k]))
  }

  /** A row holds NULL exactly in the columns whose indicator is
      SQL_NULL_DATA, and the buffer's text in all others. */
  lemma RowOfFollowsIndicators(cells: seq<Cell>)
    ensures forall k :: 0 <= k < |cells| ==>
              && (RowOf(cells)[k].None? <==> cells[k].ind == SQL_NULL_DATA)
              && (RowOf(cells)[k].Some? ==> RowOf(cells)[k].value == cells[k].buf)
  {
  }

  /** One `SQLFetch` of the store loop: its code, the bound columns it
      leaves, and whether the row node can be allocated. */
  datatype FetchStep = FetchStep(reply: Reply, cells: seq<Cell>, appendOk: bool)

  /** Whether a fetch stores a row: its code is accepted, it is not the end
      of the data, and the row node is allocated. */
  predicate Stores(s: FetchStep) {
    Accepted(s.reply.rc) && !s.reply.rc.NoData? && s.appendOk
  }

  /** The first fetch at or after `i` that stores nothing, or `|steps|`. */
  function StopAt(steps: seq<FetchStep>, i: nat): (k: nat)
    requires i <= |steps|
    decreases |steps| - i
    ensures i <= k <= |steps|
    ensures forall j :: i <= j < k ==> Stores(steps[j])
    ensures k < |steps| ==> !Stores(steps[k])
  {
    if i == |steps| then i
    else if !Stores(steps[i]) then i
    else StopAt(steps, i + 1)
  }

  /** The connection after the store loop, the rows gathered, and whether
      the loop ended normally (a rejected fetch makes the call return NULL). */
  datatype Gathered = Gathered(conn: Conn, rows: seq<Row>, ok: bool)

  /** The store loop from fetch `i` on, `rows` gathered so far. The driver
      answers SQL_NO_DATA once the listed fetches are used up. A rejected
      code stops with that code's error; the end of the data stops cleanly;
      a failed row allocation stops with an out-of-memory error and keeps
      what was gathered. */
  function Gather(c: Conn, steps: seq<FetchStep>, i: nat, rows: seq<Row>): (g: Gathered)
    requires c.priv.Some? && i <= |steps|
    decreases |steps| - i
    ensures g.conn.priv.Some? && g.conn.fields == c.fields && g.conn.affectedRows == c.affectedRows
    ensures var k := StopAt(steps, i);
      && |g.rows| == |rows| + (k - i)
      && g.rows[..|rows|] == rows
      && (forall j :: i <= j < k ==> g.rows[|rows| + (j - i)] == RowOf(steps[j].cells))
      && (g.ok <==> k == |steps| || Accepted(steps[k].reply.rc))
      && (k == |steps| || steps[k].reply.rc.NoData? ==> g.conn == c)
      && (k < |steps| && Accepted(steps[k].reply.rc) && !steps[k].reply.rc.NoData? ==>
            g.conn == SetError(c, CR_OUT_OF_MEMORY))
      && (!g.ok ==> g.conn == Trap(c, steps[k].reply).conn)
  {
    if i == |steps| then Gathered(c, rows, true)
    else
      var s := steps[i];
      var t := Trap(c, s.reply);
      if !t.ok then Gathered(t.conn, rows, false)
      else if s.reply.rc.NoData? then Gathered(t.conn, rows, true)
      else if !s.appendOk then Gathered(SetError(t.conn, CR_OUT_OF_MEMORY), rows, true)
      else Gather(t.conn, steps, i + 1, rows + [RowOf(s.cells)])
  }

  /** `_impl_store_result`: guard, allocate, bind, allocate the row list
      (`dataOk`), fetch everything, and leave the cursor on the first row.
      The row count of the result is never set. */
  function StoreResult(c: Conn, resOk: bool, buffers: nat, binds: seq<Reply>, dataOk: bool,
                       steps: seq<FetchStep>): (a: Allocated)
    requires |binds| >= |c.fields|
    ensures !Db(c).ok ==> a.conn == Db(c).conn
    ensures Db(c).ok && c.fields == [] ==> a.res.None? && a.conn.errno == 0
    ensures var k := StopAt(steps, 0);
      a.res.Some? <==> Db(c).ok && Bound(c, resOk, buffers, binds) && dataOk
                       && (k == |steps| || Accepted(steps[k].reply.rc))
    ensures a.res.Some? ==> var r := a.res.value;
      && r.data.Some? && |r.data.value| == StopAt(steps, 0)
      && (forall j :: 0 <= j < |r.data.value| ==> r.data.value[j] == RowOf(steps[j].cells))
      && (forall j, k :: 0 <= j < |r.data.value| && 0 <= k < |steps[j].cells| ==>
            (r.data.value[j][k].None? <==> steps[j].cells[k].ind == SQL_NULL_DATA))
      && r.cursor == CursorAt(0, |r.data.value|) && ValidCursor(r)
      && r.rowCount == 0 && r.currentField == 0 && !r.eof
      && r.fields == a.conn.fields
    ensures a.res.Some? ==>
              (a.conn.errno == 0 <==> StopAt(steps, 0) == |steps| || steps[StopAt(steps, 0)].reply.rc.NoData?)
    ensures a.res.Some? && a.conn.errno != 0 ==> a.conn.errno == CR_OUT_OF_MEMORY
    ensures a.res.Some? ==> !a.res.value.rowBuffer
    ensures a.res.Some? ==> a.res.value.fields == SizeBuffers(c.fields, |c.fields|) && a.conn.priv == c.priv
    ensures a.res.Some? && a.conn.errno != 0 ==> a.conn.error == OUT_OF_MEMORY_TEXT
    ensures a.conn.affectedRows == c.affectedRows
    ensures Db(c).ok && c.fields != [] && !Allocates(c, resOk, buffers) ==>
              a.conn.errno == CR_OUT_OF_MEMORY && a.conn.error == OUT_OF_MEMORY_TEXT
    ensures Db(c).ok && Allocates(c, resOk, buffers) ==> ReportsBindFailure(c, a.conn, binds)
    ensures Db(c).ok && Bound(c, resOk, buffers, binds) && !dataOk ==>
              a.conn.errno == CR_OUT_OF_MEMORY && a.conn.error == OUT_OF_MEMORY_TEXT
    ensures var k := StopAt(steps, 0);
      Db(c).ok && Bound(c, resOk, buffers, binds) && dataOk && k < |steps| && !Accepted(steps[k].reply.rc) ==>
        Reports(a.conn, c.priv.value, steps[k].reply)
  {
    var g := Db(c);
    if !g.ok then Allocated(g.conn, None)
    else
      var a := AllocRes(g.conn, resOk, buffers);
      if a.res.None? then a
      else
        var t := BindColumns(a.conn, binds, 0, |a.conn.fields|);
        if !t.ok then Allocated(t.conn, None)
        else if !dataOk then Allocated(SetError(t.conn, CR_OUT_OF_MEMORY), None)
        else
          var gathered := Gather(t.conn, steps, 0, []);
          if !gathered.ok then Allocated(gathered.conn, None)
          else
            var rows := gathered.rows;
            Allocated(gathered.conn, Some(a.res.value.(data := Some(rows), cursor := CursorAt(0, |rows|))))
  }

  /** The first rejected bind of `c`'s schema, if any. */
  function BindRejection(c: Conn, binds: seq<Reply>): (r: Option<Reply>)
    requires |binds| >= |c.fields|
    ensures r.None? <==> FirstRejected(binds, 0, |c.fields|) == |c.fields|
  {
    var m := FirstRejected(binds, 0, |c.fields|);
    if m < |c.fields| then Some(binds[m]) else None
  }

  /** The rejected code `_impl_use_result` traps, if any: the first rejected
      bind, once the guard and the allocations passed. */
  function UseRejection(c: Conn, resOk: bool, buffers: nat, rowOk: bool, binds: seq<Reply>): Option<Reply>
    requires |binds| >= |c.fields|
  {
    if Db(c).ok && Allocates(c, resOk, buffers) && rowOk then BindRejection(c, binds) else None
  }

  /** The rejected code `_impl_store_result` traps, if any: the first rejected
      bind, or else the rejected fetch that stopped the store loop. */
  function StoreRejection(c: Conn, resOk: bool, buffers: nat, binds: seq<Reply>, dataOk: bool,
                          steps: seq<FetchStep>): Option<Reply>
    requires |binds| >= |c.fields|
  {
    var k := StopAt(steps, 0);
    if !Db(c).ok || !Allocates(c, resOk, buffers) then None
    else if BindRejection(c, binds).Some? then BindRejection(c, binds)
    else if dataOk && k < |steps| && !Accepted(steps[k].reply.rc) then Some(steps[k].reply)
    else None
  }

  /** `_impl_use_result` changes the private state at most in `connected`,
      which a rejected bind reporting an invalid handle clears. */
  lemma UseResultKeepsHandles(c: Conn, resOk: bool, buffers: nat, rowOk: bool, binds: seq<Reply>)
    requires |binds| >= |c.fields|
    ensures var a := UseResult(c, resOk, buffers, rowOk, binds);
      && (a.conn.priv.Some? <==> c.priv.Some?)
      && (c.priv.Some? ==> PrivKept(c.priv.value, a.conn.priv.value, UseRejection(c, resOk, buffers, rowOk, binds)))
  {
  }

  /** `_impl_store_result` changes the private state at most in `connected`,
      which a rejected bind or fetch reporting an invalid handle clears. */
  lemma StoreResultKeepsHandles(c: Conn, resOk: bool, buffers: nat, binds: seq<Reply>, dataOk: bool,
                                steps: seq<FetchStep>)
    requires |binds| >= |c.fields|
    ensures var a := StoreResult(c, resOk, buffers, binds, dataOk, steps);
      && (a.conn.priv.Some? <==> c.priv.Some?)
      && (c.priv.Some? ==>
            PrivKept(c.priv.value, a.conn.priv.value, StoreRejection(c, resOk, buffers, binds, dataOk, steps)))
  {
  }

  /** After a successful statement, a result taken with either call has one
      descriptor per column the statement reported, each the connection's
      descriptor with its buffer size recorded, and the connection keeps
      sharing that schema. */
  lemma ResultHasQueryColumns(c: Conn, q: QueryReplies, allocOk: bool,
                              resOk: bool, buffers: nat, rowOk: bool, binds: seq<Reply>, dataOk: bool,
                              steps: seq<FetchStep>)
    requires q.numCols > 0 ==> |q.columns| >= q.numCols
    requires HasData(q) && q.numCols > 0 ==> allocOk
    requires HasData(q) ==> q.numCols >= 0
    requires ExecQuery(c, q, allocOk).rc == 0
    requires |binds| >= |ExecQuery(c, q, allocOk).conn.fields|
    ensures var o := ExecQuery(c, q, allocOk).conn; var u := UseResult(o, resOk, buffers, rowOk, binds);
      u.res.Some? ==>
        && NumFields(u.res.value) == ColumnCount(q) && FetchFields(u.res.value) == u.conn.fields
        && forall j :: 0 <= j < ColumnCount(q) ==>
             FetchFieldDirect(u.res.value, j) == o.fields[j].(maxLength := BufferSize(o.fields[j]))
    ensures var o := ExecQuery(c, q, allocOk).conn; var s := StoreResult(o, resOk, buffers, binds, dataOk, steps);
      s.res.Some? ==>
        && NumFields(s.res.value) == ColumnCount(q) && FetchFields(s.res.value) == s.conn.fields
        && forall j :: 0 <= j < ColumnCount(q) ==>
             FetchFieldDirect(s.res.value, j) == o.fields[j].(maxLength := BufferSize(o.fields[j]))
  {
    QueryFieldsAreStrings(c, q, allocOk);
  }

  /** What the driver answers one streaming `SQLFetch`: its code and the
      bound columns it leaves. */
  datatype FetchReply = FetchReply(reply: Reply, cells: seq<Cell>)

  /** A connection and result after `mysql_fetch_row`, and the row it
      returned (`None` for NULL). */
  datatype RowFetch = RowFetch(conn: Conn, res: Res, row: Option<Row>)

  /** Whether a fetch fills in `current_row`: a streaming result not yet at
      eof whose guard passes and whose fetch delivers a row. */
  predicate WritesRow(c: Conn, r: Res, step: FetchReply) {
    r.data.None? && !r.eof && Db(c).ok && Accepted(step.reply.rc) && !step.reply.rc.NoData?
  }

  /** `_impl_fetch_row`. A buffered result hands out the row under the cursor
      and advances it, without touching the connection or the driver;
      `current_row` then points at that row, or is NULL. A streaming one
      passes the guard, then stops at eof, or fetches: a rejected code
      returns NULL, SQL_NO_DATA sets eof, any other accepted code fills in
      `current_row`, which must then be allocated, and counts the row in
      `my_ulonglong`. */
  function FetchRow(c: Conn, r: Res, step: FetchReply): (f: RowFetch)
    requires ValidCursor(r)
    requires WritesRow(c, r, step) ==> r.rowBuffer
    ensures ValidCursor(f.res)
    ensures f.res.fields == r.fields && f.res.currentField == r.currentField && f.res.data == r.data
    ensures r.data.Some? ==> f.conn == c && f.res.rowCount == r.rowCount && f.res.eof == r.eof
    ensures r.data.Some? ==> (f.row.Some? <==> r.cursor.Some?)
    ensures r.data.Some? && r.cursor.Some? ==>
              && f.row == Some(r.data.value[r.cursor.value])
              && f.res.cursor == CursorAt(r.cursor.value + 1, |r.data.value|)
    ensures r.data.Some? && r.cursor.None? ==> f.res == r.(rowBuffer := false)
    ensures r.data.Some? ==> (f.res.rowBuffer <==> f.row.Some?)
    ensures r.data.None? ==> f.res.cursor == r.cursor && f.res.rowBuffer == r.rowBuffer
    ensures r.data.None? ==>
              (f.row.Some? <==> !r.eof && Db(c).ok && Accepted(step.reply.rc) && !step.reply.rc.NoData?)
    ensures r.data.None? && f.row.Some? ==>
              f.row == Some(RowOf(step.cells)) && f.res.rowCount == (r.rowCount + 1) % (ULONG_MAX + 1)
    ensures r.data.None? && f.row.Some? ==>
              forall k :: 0 <= k < |step.cells| ==> (f.row.value[k].None? <==> step.cells[k].ind == SQL_NULL_DATA)
    ensures r.data.None? && f.row.None? ==> f.res.rowCount == r.rowCount
    ensures r.data.None? ==> (f.res.eof <==> r.eof || (Db(c).ok && step.reply.rc.NoData?))
    ensures r.data.None? && (r.eof || !Db(c).ok) ==> f.conn == Db(c).conn
    ensures r.data.None? && !r.eof && Db(c).ok ==> f.conn == Trap(Db(c).conn, step.reply).conn
    ensures r.data.None? && Db(c).ok ==> f.conn.fields == c.fields && f.conn.affectedRows == c.affectedRows
    ensures r.data.None? && Db(c).ok && (r.eof || Accepted(step.reply.rc)) ==>
              f.conn.errno == 0 && f.conn.error == ""
    ensures r.data.None? && Db(c).ok && !r.eof && !Accepted(step.reply.rc) ==>
              f.conn.errno in {CR_SERVER_LOST, CR_ODBC_ERROR, CR_UNKNOWN_ERROR}
  {
    match r.data
    case Some(rows) =>
      if r.cursor.None? then RowFetch(c, r.(rowBuffer := false), None)
      else
        var i := r.cursor.value;
        RowFetch(c, r.(cursor := CursorAt(i + 1, |rows|), rowBuffer := true), Some(rows[i]))
    case None =>
      var g := Db(c);
      if r.eof || !g.ok then RowFetch(g.conn, r, None)
      else
        var t := Trap(g.conn, step.reply);
        if !t.ok then TrapFailureIsReported(g.conn, step.reply); RowFetch(t.conn, r, None)
        else if step.reply.rc.NoData? then RowFetch(t.conn, r.(eof := true), None)
        else RowFetch(t.conn, r.(rowCount := (r.rowCount + 1) % (ULONG_MAX + 1)), Some(RowOf(step.cells)))
  }

  /** Successive `mysql_fetch_row` calls, one per driver answer, and the rows
      they returned. */
  datatype Replay = Replay(conn: Conn, res: Res, rows: seq<Option<Row>>)

  function FetchRows(c: Conn, r: Res, steps: seq<FetchReply>): (p: Replay)
    requires ValidCursor(r)
    requires r.data.None? ==> r.rowBuffer || r.eof
    decreases |steps|
    ensures |p.rows| == |steps| && ValidCursor(p.res)
    ensures p.res.fields == r.fields && p.res.data == r.data && p.res.currentField == r.currentField
  {
    if steps == [] then Replay(c, r, [])
    else
      var f := FetchRow(c, r, steps[0]);
      var rest := FetchRows(f.conn, f.res, steps[1..]);
      Replay(rest.conn, rest.res, [f.row] + rest.rows)
  }

  /** Rows delivered (non-NULL returns) among the results of a replay. */
  function Delivered(rows: seq<Option<Row>>): nat {
    if rows == [] then 0 else (if rows[0].Some? then 1 else 0) + Delivered(rows[1..])
  }

  /** `mysql_num_rows`. */
  function NumRows(r: Res): nat {
    r.rowCount
  }

  /** `mysql_eof`. */
  function Eof(r: Res): bool {
    r.eof
  }

  /** `mysql_row_tell`. */
  function RowTell(r: Res): Option<nat> {
    r.cursor
  }

  /** `mysql_field_tell`. */
  function FieldTell(r: Res): nat {
    r.currentField
  }

  /** A result after a seek, and the offset it replaced. */
  datatype RowMove = RowMove(res: Res, previous: Option<nat>)
  datatype FieldMove = FieldMove(res: Res, previous: nat)

  /** `mysql_row_seek`: install a cursor (NULL or a row of this result),
      set `current_row` to NULL and return the old cursor. */
  function RowSeek(r: Res, offset: Option<nat>): (m: RowMove)
    requires ValidCursor(r.(cursor := offset))
    ensures RowTell(m.res) == offset && m.previous == RowTell(r)
    ensures m.res == r.(cursor := offset, rowBuffer := false) && ValidCursor(m.res)
  {
    RowMove(r.(cursor := offset, rowBuffer := false), r.cursor)
  }

  /** `mysql_field_seek`: install a field offset and return the old one. */
  function FieldSeek(r: Res, offset: nat): (m: FieldMove)
    ensures FieldTell(m.res) == offset && m.previous == FieldTell(r)
    ensures m.res == r.(currentField := offset)
  {
    FieldMove(r.(currentField := offset), r.currentField)
  }

  /** A result after `mysql_fetch_field`, and the descriptor returned. */
  datatype FieldFetch = FieldFetch(res: Res, field: Option<Field>)

  /** `mysql_fetch_field`: the descriptor under the field cursor, advancing
      it, or NULL without moving once the cursor is past the last column. */
  function FetchField(r: Res): (f: FieldFetch)
    ensures f.res == r.(currentField := f.res.currentField)
    ensures r.currentField < |r.fields| ==>
              f.field == Some(r.fields[r.currentField]) && f.res.currentField == r.currentField + 1
    ensures r.currentField >= |r.fields| ==> f.field.None? && f.res == r
  {
    if r.currentField >= |r.fields| then FieldFetch(r, None)
    else FieldFetch(r.(currentField := r.currentField + 1), Some(r.fields[r.currentField]))
  }

  /** `mysql_num_fields`: `field_count`, one per descriptor. */
  function NumFields(r: Res): nat {
    |r.fields|
  }

  /** `mysql_fetch_fields`: the whole descriptor array. */
  function FetchFields(r: Res): seq<Field> {
    r.fields
  }

  /** `mysql_fetch_field_direct`: the descriptor of column `n`, unchecked. */
  function FetchFieldDirect(r: Res, n: nat): (f: Field)
    requires n < |r.fields|
    ensures f == r.fields[n]
  {
    r.fields[n]
  }

  /** Column `n` read directly is the descriptor `mysql_fetch_field` returns
      once `mysql_field_seek` has put the field cursor on `n`, and reading it
      moves no cursor. */
  lemma FieldDirectIsSeekThenFetch(r: Res, n: nat)
    requires n < |r.fields|
    ensures FetchField(FieldSeek(r, n).res).field == Some(FetchFieldDirect(r, n))
    ensures FieldTell(FetchField(FieldSeek(r, n).res).res) == n + 1
  {
  }

  /** The array `mysql_fetch_fields` returns has `mysql_num_fields` entries,
      entry `n` is what `mysql_fetch_field_direct` returns for `n`, and a walk
      from the first field with `mysql_fetch_field` returns them all in order. */
  lemma FieldAccessorsAgree(r: Res)
    ensures |FetchFields(r)| == NumFields(r)
    ensures forall n :: 0 <= n < NumFields(r) ==> FetchFields(r)[n] == FetchFieldDirect(r, n)
    ensures var w := WalkFields(FieldSeek(r, 0).res, NumFields(r));
      forall n :: 0 <= n < NumFields(r) ==> w.fields[n] == Some(FetchFields(r)[n])
  {
    FieldWalkInOrder(FieldSeek(r, 0).res, NumFields(r));
  }

  /** `mysql_data_seek` does nothing. */
  function DataSeek(r: Res, offset: nat): Res {
    r
  }

  /** `mysql_fetch_lengths` is not implemented and returns NULL. */
  function FetchLengths(r: Res): Option<seq<nat>> {
    None
  }

  /** Successive `mysql_fetch_field` calls and the descriptors returned. */
  datatype FieldWalk = FieldWalk(res: Res, fields: seq<Option<Field>>)

  function WalkFields(r: Res, n: nat): (w: FieldWalk)
    decreases n
    ensures |w.fields| == n
  {
    if n == 0 then FieldWalk(r, [])
    else
      var f := FetchField(r);
      var rest := WalkFields(f.res, n - 1);
      FieldWalk(rest.res, [f.field] + rest.fields)
  }

  /** A buffered result whose cursor is on row `k` hands out rows `k`, `k + 1`,
      ... in order, then NULL on every later call, whatever the driver would
      answer and without touching the connection. */
  lemma {:induction false} BufferedReplay(c: Conn, r: Res, steps: seq<FetchReply>, k: nat)
    requires r.data.Some? && r.cursor == CursorAt(k, |r.data.value|)
    decreases |steps|
    ensures var p := FetchRows(c, r, steps); var rows := r.data.value;
      && p.conn == c
      && p.res.cursor == CursorAt(k + |steps|, |rows|)
      && p.res.rowCount == r.rowCount && p.res.eof == r.eof
      && forall j :: 0 <= j < |steps| ==> p.rows[j] == (if k + j < |rows| then Some(rows[k + j]) else None)
  {
    if steps != [] {
      var f := FetchRow(c, r, steps[0]);
      BufferedReplay(f.conn, f.res, steps[1..], k + 1);
      var rest := FetchRows(f.conn, f.res, steps[1..]);
      var p := FetchRows(c, r, steps);
      assert p.rows == [f.row] + rest.rows;
      forall j | 0 <= j < |steps|
        ensures p.rows[j] == (if k + j < |r.data.value| then Some(r.data.value[k + j]) else None)
      {
        if j > 0 {
          assert p.rows[j] == rest.rows[j - 1];
        }
      }
    }
  }

  /** Once a streaming result has seen the end of the data, every fetch
      returns NULL and the result no longer changes. */
  lemma {:induction false} EofIsSticky(c: Conn, r: Res, steps: seq<FetchReply>)
    requires r.data.None? && r.eof && ValidCursor(r)
    decreases |steps|
    ensures var p := FetchRows(c, r, steps);
      p.res == r && forall j :: 0 <= j < |steps| ==> p.rows[j].None?
  {
    if steps != [] {
      var f := FetchRow(c, r, steps[0]);
      EofIsSticky(f.conn, f.res, steps[1..]);
    }
  }

  /** A streaming fetch answered with SQL_NO_DATA sets eof, and it and every
      later fetch return NULL. */
  lemma StreamEndsAtNoData(c: Conn, r: Res, steps: seq<FetchReply>)
    requires r.data.None? && !r.eof && r.rowBuffer && ValidCursor(r)
    requires Db(c).ok && steps != [] && steps[0].reply.rc.NoData?
    ensures var p := FetchRows(c, r, steps);
      Eof(p.res) && forall j :: 0 <= j < |steps| ==> p.rows[j].None?
  {
    var f := FetchRow(c, r, steps[0]);
    EofIsSticky(f.conn, f.res, steps[1..]);
  }

  /** A streaming result counts exactly the rows it delivered, as long as the
      count stays within `my_ulonglong`. */
  lemma {:induction false} StreamingCountsDelivered(c: Conn, r: Res, steps: seq<FetchReply>)
    requires r.data.None? && (r.rowBuffer || r.eof) && ValidCursor(r)
    requires r.rowCount + |steps| <= ULONG_MAX
    decreases |steps|
    ensures var p := FetchRows(c, r, steps);
      NumRows(p.res) == r.rowCount + Delivered(p.rows)
  {
    if steps != [] {
      var f := FetchRow(c, r, steps[0]);
      StreamingCountsDelivered(f.conn, f.res, steps[1..]);
      var rest := FetchRows(f.conn, f.res, steps[1..]);
      assert ([f.row] + rest.rows)[1..] == rest.rows;
    }
  }

  /** A result as `StoreResult` leaves it (cursor on the first stored row,
      row count 0) hands back the stored rows in order and then NULL forever,
      and its row count stays 0 however many rows it held. */
  lemma StoredRowsReplayInOrder(c: Conn, r: Res, replies: seq<FetchReply>)
    requires r.data.Some? && r.cursor == CursorAt(0, |r.data.value|) && r.rowCount == 0
    ensures var p := FetchRows(c, r, replies); var rows := r.data.value;
      && NumRows(p.res) == 0 && Eof(p.res) == r.eof
      && forall j :: 0 <= j < |replies| ==> p.rows[j] == (if j < |rows| then Some(rows[j]) else None)
  {
    BufferedReplay(c, r, replies, 0);
    var p := FetchRows(c, r, replies);
    forall j | 0 <= j < |replies|
      ensures p.rows[j] == (if j < |r.data.value| then Some(r.data.value[j]) else None)
    {
      assert 0 + j == j;
    }
  }

  /** From field offset `k`, successive `mysql_fetch_field` calls return the
      descriptors `k`, `k + 1`, ... in order, then NULL without moving the
      offset further. */
  lemma {:induction false} FieldWalkInOrder(r: Res, n: nat)
    decreases n
    ensures var w := WalkFields(r, n); var k := r.currentField;
      && (forall j :: 0 <= j < n ==> w.fields[j] == (if k + j < |r.fields| then Some(r.fields[k + j]) else None))
      && FieldTell(w.res) == (if k >= |r.fields| then k else if k + n <= |r.fields| then k + n else |r.fields|)
      && w.res == r.(currentField := FieldTell(w.res))
  {
    if n > 0 {
      var f := FetchField(r);
      FieldWalkInOrder(f.res, n - 1);
      var rest := WalkFields(f.res, n - 1);
      var w := WalkFields(r, n);
      assert w.fields == [f.field] + rest.fields;
      forall j | 0 <= j < n
        ensures w.fields[j] == (if r.currentField + j < |r.fields| then Some(r.fields[r.currentField + j]) else None)
      {
        if j > 0 {
          assert w.fields[j] == rest.fields[j - 1];
        }
      }
    }
  }

  /** Seeking back to the offset a seek returned restores the result, except
      that `current_row` stays NULL. */
  lemma SeekBackRestores(r: Res, offset: Option<nat>, field: nat)
    requires ValidCursor(r) && ValidCursor(r.(cursor := offset))
    ensures var m := RowSeek(r, offset); RowSeek(m.res, m.previous).res == r.(rowBuffer := false)
    ensures var m := FieldSeek(r, field); FieldSeek(m.res, m.previous).res == r
  {
  }

  /** The row cursor and `mysql_data_seek` are independent: the latter does
      nothing, and `mysql_fetch_lengths` never has lengths to give. */
  lemma StubsChangeNothing(r: Res, offset: nat)
    ensures DataSeek(r, offset) == r
    ensures FetchLengths(r).None?
  {
  }
}
