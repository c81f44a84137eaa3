/**
 `mysql_query` / `mysql_real_query`: run a statement on the connection's one
 ODBC statement handle, then describe its result columns from the driver's
 column attributes and record the affected-row count. Every descriptor is
 reported as a string column whatever the driver's type.
 */
module Query {
  import opened Base
  import opened Header
  import opened Connection

  /** `_alloc_fields`: release the old schema, then allocate `count` zeroed
      descriptors. A count of 0 leaves a NULL array, which is not an error; a
      failed allocation leaves a NULL array and an out-of-memory error. */
  function AllocFields(c: Conn, count: nat, allocOk: bool): (r: Checked)
    ensures r.conn.priv == c.priv && r.conn.affectedRows == c.affectedRows
    ensures r.ok <==> count == 0 || allocOk
    ensures r.ok ==> r.conn.errno == c.errno && r.conn.error == c.error
    ensures r.ok ==> |r.conn.fields| == count
    ensures r.ok ==> forall i :: 0 <= i < count ==> r.conn.fields[i] == ZeroField
    ensures !r.ok ==> r.conn.fields == [] && r.conn.errno == CR_OUT_OF_MEMORY
    ensures !r.ok ==> r.conn.error == OUT_OF_MEMORY_TEXT
  {
    var e := FreeFields(c);
    if count > 0 && !allocOk then Checked(SetError(e, CR_OUT_OF_MEMORY), false)
    else Checked(e.(fields := seq(count, _ => ZeroField)), true)
  }

  /** Longest attribute text the 128-byte `value` buffer receives. */
  const ATTR_MAX: nat := 127

  /** Width recorded for a column whose display size is negative (blobs). */
  const BLOB_DISPLAY_SIZE: nat := 65500

  /** The driver's answers to the three `SQLColAttribute` calls of one column:
      table name, label and display size, each with the text or number it
      writes. */
  datatype ColumnReplies = ColumnReplies(
    tableReply: Reply,
    tableName: CString,
    labelReply: Reply,
    labelName: CString,
    sizeReply: Reply,
    displaySize: Int32)

  /** Whether all three attribute reads of a column are accepted. */
  predicate ColumnAccepted(col: ColumnReplies) {
    Accepted(col.tableReply.rc) && Accepted(col.labelReply.rc) && Accepted(col.sizeReply.rc)
  }

  /** The number of descriptors `_alloc_fields` is asked for: the column
      count as an unsigned int, or none without a result. */
  function SchemaCount(q: QueryReplies): nat {
    if HasData(q) then ToUInt(q.numCols) else 0
  }

  /** Whether the schema allocation succeeds: nothing to allocate, or memory. */
  predicate SchemaAllocated(q: QueryReplies, allocOk: bool) {
    SchemaCount(q) == 0 || allocOk
  }

  /** The first rejected attribute read of a column, if any. */
  function RejectedReply(col: ColumnReplies): (r: Option<Reply>)
    ensures r.None? <==> ColumnAccepted(col)
    ensures r.Some? ==> !Accepted(r.value.rc)
  {
    if !Accepted(col.tableReply.rc) then Some(col.tableReply)
    else if !Accepted(col.labelReply.rc) then Some(col.labelReply)
    else if !Accepted(col.sizeReply.rc) then Some(col.sizeReply)
    else None
  }

  /** `field.length` from a display size: negative sizes become 65500. */
  function DisplayLength(n: Int32): (r: nat)
    ensures r < 0x8000_0000
    ensures n >= 0 ==> r == n
    ensures n < 0 ==> r == BLOB_DISPLAY_SIZE
  {
    if n < 0 then BLOB_DISPLAY_SIZE else n
  }

  /** The descriptor a column leaves behind: marked a string first, then its
      table name, label and width filled in for as long as the driver's
      answers were accepted. */
  function Described(f: Field, col: ColumnReplies): (r: Field)
    ensures r.ftype == FIELD_TYPE_STRING
    ensures r.def == f.def && r.maxLength == f.maxLength && r.flags == f.flags && r.decimals == f.decimals
    ensures r.table == (if Accepted(col.tableReply.rc) then Some(Prefix(col.tableName, ATTR_MAX)) else f.table)
    ensures r.name == (if Accepted(col.tableReply.rc) && Accepted(col.labelReply.rc)
                       then Some(Prefix(col.labelName, ATTR_MAX)) else f.name)
    ensures r.length == (if ColumnAccepted(col) then DisplayLength(col.displaySize) else f.length)
  {
    var f0 := f.(ftype := FIELD_TYPE_STRING);
    if !Accepted(col.tableReply.rc) then f0
    else
      var f1 := f0.(table := Some(Prefix(col.tableName, ATTR_MAX)));
      if !Accepted(col.labelReply.rc) then f1
      else
        var f2 := f1.(name := Some(Prefix(col.labelName, ATTR_MAX)));
        if !Accepted(col.sizeReply.rc) then f2 else f2.(length := DisplayLength(col.displaySize))
  }

  /** One turn of the discovery loop on descriptor `k`: three attribute reads,
      each trapped, the first rejected one ending the turn with its error. */
  function DescribeColumn(c: Conn, k: nat, col: ColumnReplies): (r: Checked)
    requires c.priv.Some? && k < |c.fields|
    ensures r.ok <==> ColumnAccepted(col)
    ensures r.conn.fields == c.fields[k := Described(c.fields[k], col)]
    ensures r.conn.affectedRows == c.affectedRows && r.conn.priv.Some?
    ensures r.ok ==> r.conn == c.(fields := r.conn.fields)
    ensures !r.ok ==> var t := Trap(c, RejectedReply(col).value);
              r.conn.errno == t.conn.errno && r.conn.error == t.conn.error && r.conn.priv == t.conn.priv
  {
    var f0 := c.fields[k].(ftype := FIELD_TYPE_STRING);
    var t1 := Trap(c.(fields := c.fields[k := f0]), col.tableReply);
    if !t1.ok then t1
    else
      var f1 := f0.(table := Some(Prefix(col.tableName, ATTR_MAX)));
      var t2 := Trap(t1.conn.(fields := c.fields[k := f1]), col.labelReply);
      if !t2.ok then t2
      else
        var f2 := f1.(name := Some(Prefix(col.labelName, ATTR_MAX)));
        var t3 := Trap(t2.conn.(fields := c.fields[k := f2]), col.sizeReply);
        if !t3.ok then t3
        else Checked(t3.conn.(fields := c.fields[k := f2.(length := DisplayLength(col.displaySize))]), true)
  }

  /** The first column in `i .. n - 1` with a rejected attribute read, or `n`. */
  function FirstRejectedColumn(cols: seq<ColumnReplies>, i: nat, n: nat): (m: nat)
    requires i <= n <= |cols|
    decreases n - i
    ensures i <= m <= n
    ensures forall j :: i <= j < m ==> ColumnAccepted(cols[j])
    ensures m < n ==> !ColumnAccepted(cols[m])
  {
    if i == n then n
    else if !ColumnAccepted(cols[i]) then i
    else FirstRejectedColumn(cols, i + 1, n)
  }

  /** The discovery loop over descriptors `i .. n - 1`: every column up to the
      first rejected one is described, that one keeps what it had been given
      so far, and the rest stay untouched. */
  function Describe(c: Conn, cols: seq<ColumnReplies>, i: nat, n: nat): (r: Checked)
    requires c.priv.Some? && i <= n <= |c.fields| && n <= |cols|
    decreases n - i
    ensures |r.conn.fields| == |c.fields| && r.conn.affectedRows == c.affectedRows
    ensures r.conn.priv.Some?
    ensures r.ok <==> FirstRejectedColumn(cols, i, n) == n
    ensures forall j :: 0 <= j < i ==> r.conn.fields[j] == c.fields[j]
    ensures forall j :: FirstRejectedColumn(cols, i, n) < j < |c.fields| ==> r.conn.fields[j] == c.fields[j]
    ensures forall j :: i <= j < n && j <= FirstRejectedColumn(cols, i, n) ==>
              r.conn.fields[j] == Described(c.fields[j], cols[j])
    ensures r.ok ==> r.conn == c.(fields := r.conn.fields)
    ensures !r.ok ==> var t := Trap(c, RejectedReply(cols[FirstRejectedColumn(cols, i, n)]).value);
              r.conn.errno == t.conn.errno && r.conn.error == t.conn.error && r.conn.priv == t.conn.priv
  {
    if i == n then Checked(c, true)
    else
      var t := DescribeColumn(c, i, cols[i]);
      if !t.ok then t else Describe(t.conn, cols, i + 1, n)
  }

  /** The driver's answers for one statement: the execution, the column count,
      the attributes of each column (column `j + 1` is `columns[j]`) and the
      affected-row count. */
  datatype QueryReplies = QueryReplies(
    exec: Reply,
    numColsReply: Reply,
    numCols: Int16,
    columns: seq<ColumnReplies>,
    rowCountReply: Reply,
    rowCount: Int32)

  /** What `_impl_query` leaves: the connection, its return value (0 or -1)
      and whether the previous statement was closed first. */
  datatype QueryOutcome = QueryOutcome(conn: Conn, rc: int, closedPrevious: bool)

  /** Whether the execution produced a result to describe. */
  predicate HasData(q: QueryReplies) {
    !q.exec.rc.NoData?
  }

  /** The number of columns the discovery loop visits. */
  function ColumnCount(q: QueryReplies): nat {
    if HasData(q) && q.numCols > 0 then q.numCols else 0
  }

  /** Whether every call of the statement up to the row count is accepted. */
  predicate QueryAccepted(q: QueryReplies) {
    && Accepted(q.exec.rc)
    && (HasData(q) ==> Accepted(q.numColsReply.rc))
    && ColumnCount(q) <= |q.columns|
    && forall j :: 0 <= j < ColumnCount(q) ==> ColumnAccepted(q.columns[j])
  }

  /** The first rejected attribute read among the visited columns, if any. */
  function FirstRejectedRead(q: QueryReplies): (r: Option<Reply>)
    requires ColumnCount(q) <= |q.columns|
    ensures r.None? <==> forall j :: 0 <= j < ColumnCount(q) ==> ColumnAccepted(q.columns[j])
    ensures r.Some? ==> !Accepted(r.value.rc)
  {
    var m := FirstRejectedColumn(q.columns, 0, ColumnCount(q));
    if m == ColumnCount(q) then None else RejectedReply(q.columns[m])
  }

  /** The first rejected call of a statement before the row count: the
      execution, then the column count when there is a result, then the
      attribute reads column by column. */
  function FirstRejectedCall(q: QueryReplies): (r: Option<Reply>)
    requires ColumnCount(q) <= |q.columns|
    ensures r.None? <==> QueryAccepted(q)
    ensures r.Some? ==> !Accepted(r.value.rc)
  {
    if !Accepted(q.exec.rc) then Some(q.exec)
    else if HasData(q) && !Accepted(q.numColsReply.rc) then Some(q.numColsReply)
    else FirstRejectedRead(q)
  }

  /** The rejection a described result leaves, if any: the first rejected
      attribute read, or else a rejected row count. */
  function ReadRejection(q: QueryReplies): (r: Option<Reply>)
    requires ColumnCount(q) <= |q.columns|
    ensures r.None? <==> FirstRejectedRead(q).None? && Accepted(q.rowCountReply.rc)
  {
    if FirstRejectedRead(q).Some? then FirstRejectedRead(q)
    else if !Accepted(q.rowCountReply.rc) then Some(q.rowCountReply)
    else None
  }

  /** The rejection a statement leaves, if any: the first rejected call up to
      the column attributes, or else a rejected row count. */
  function QueryRejection(q: QueryReplies): (r: Option<Reply>)
    requires ColumnCount(q) <= |q.columns|
    ensures r.None? <==> QueryAccepted(q) && Accepted(q.rowCountReply.rc)
  {
    if FirstRejectedCall(q).Some? then FirstRejectedCall(q)
    else if !Accepted(q.rowCountReply.rc) then Some(q.rowCountReply)
    else None
  }

  /** The rest of `_impl_query` once the column count was accepted: the schema
      is allocated and described, then the affected-row count is read, whose
      rejection does not fail the statement. */
  function DescribeResult(c: Conn, q: QueryReplies, allocOk: bool, prev: bool): (o: QueryOutcome)
    requires c.priv.Some?
    requires q.numCols > 0 ==> |q.columns| >= q.numCols
    requires HasData(q) && q.numCols > 0 ==> allocOk
    ensures o.rc == 0 || o.rc == -1
    ensures o.closedPrevious == prev
    ensures o.rc == 0 <==> forall j :: 0 <= j < ColumnCount(q) ==> ColumnAccepted(q.columns[j])
    ensures o.conn.priv.Some?
    ensures o.conn.priv.value.prepared == c.priv.value.prepared
    ensures o.conn.priv.value.haveData == c.priv.value.haveData
    ensures o.rc == 0 ==>
              o.conn.affectedRows == (if Accepted(q.rowCountReply.rc) then ToULong(q.rowCount) else MYSQL_COUNT_ERROR)
    ensures o.rc == -1 ==> o.conn.errno in {CR_SERVER_LOST, CR_ODBC_ERROR, CR_UNKNOWN_ERROR}
    ensures o.rc == -1 ==> Reports(o.conn, c.priv.value, FirstRejectedRead(q).value)
    ensures o.rc == 0 && !Accepted(q.rowCountReply.rc) ==> Reports(o.conn, c.priv.value, q.rowCountReply)
    ensures o.rc == 0 && Accepted(q.rowCountReply.rc) && SchemaAllocated(q, allocOk) ==>
              o.conn.errno == c.errno && o.conn.error == c.error
    ensures o.rc == 0 && Accepted(q.rowCountReply.rc) && !SchemaAllocated(q, allocOk) ==>
              o.conn.errno == CR_OUT_OF_MEMORY && o.conn.error == OUT_OF_MEMORY_TEXT
  {
    var a := AllocFields(c, SchemaCount(q), allocOk);
    var n := ColumnCount(q);
    var d := Describe(a.conn, q.columns, 0, n);
    var m := FirstRejectedColumn(q.columns, 0, n);
    if !d.ok then
      TrapFailureIsReported(a.conn, RejectedReply(q.columns[m]).value);
      QueryOutcome(d.conn, -1, prev)
    else
      var rc := Trap(d.conn, q.rowCountReply);
      var affected := if rc.ok then ToULong(q.rowCount) else MYSQL_COUNT_ERROR;
      QueryOutcome(rc.conn.(affectedRows := affected), 0, prev)
  }

  /** `_impl_query` once the statement was executed: the column count is
      read when there is a result, then the result is described. */
  function ReadColumns(c: Conn, q: QueryReplies, allocOk: bool, prev: bool): (o: QueryOutcome)
    requires c.priv.Some? && Accepted(q.exec.rc)
    requires q.numCols > 0 ==> |q.columns| >= q.numCols
    requires HasData(q) && q.numCols > 0 ==> allocOk
    ensures o.rc == 0 || o.rc == -1
    ensures o.rc == 0 <==> QueryAccepted(q)
    ensures o.closedPrevious == prev
    ensures o.conn.priv.Some?
    ensures o.conn.priv.value.prepared == c.priv.value.prepared
    ensures o.conn.priv.value.haveData == c.priv.value.haveData
    ensures HasData(q) && !Accepted(q.numColsReply.rc) ==> o.conn.fields == c.fields
    ensures o.rc == 0 ==>
              o.conn.affectedRows == (if Accepted(q.rowCountReply.rc) then ToULong(q.rowCount) else MYSQL_COUNT_ERROR)
    ensures o.rc == -1 ==> Reports(o.conn, c.priv.value, FirstRejectedCall(q).value)
    ensures o.rc == 0 && Accepted(q.rowCountReply.rc) && SchemaAllocated(q, allocOk) ==>
              o.conn.errno == c.errno && o.conn.error == c.error
    ensures o.rc == 0 && Accepted(q.rowCountReply.rc) && !SchemaAllocated(q, allocOk) ==>
              o.conn.errno == CR_OUT_OF_MEMORY && o.conn.error == OUT_OF_MEMORY_TEXT
    ensures o.rc == 0 && !Accepted(q.rowCountReply.rc) ==> Reports(o.conn, c.priv.value, q.rowCountReply)
  {
    var tn := if HasData(q) then Trap(c, q.numColsReply) else Checked(c, true);
    if !tn.ok then
      TrapFailureIsReported(c, q.numColsReply);
      QueryOutcome(tn.conn, -1, prev)
    else DescribeResult(tn.conn, q, allocOk, prev)
  }

  /** `_impl_query` past the `_db` guard: the previous statement is closed,
      the new one executed, and the rest left to `ReadColumns`. */
  function Execute(c: Conn, q: QueryReplies, allocOk: bool): (o: QueryOutcome)
    requires c.priv.Some?
    requires q.numCols > 0 ==> |q.columns| >= q.numCols
    requires HasData(q) && q.numCols > 0 ==> allocOk
    ensures o.rc == 0 || o.rc == -1
    ensures o.rc == 0 <==> QueryAccepted(q)
    ensures o.closedPrevious == c.priv.value.prepared
    ensures o.conn.priv.Some?
    ensures Accepted(q.exec.rc) ==>
              o.conn.priv.value.prepared && (o.conn.priv.value.haveData <==> HasData(q))
    ensures !Accepted(q.exec.rc) ==> !o.conn.priv.value.prepared && !o.conn.priv.value.haveData
    ensures !Accepted(q.exec.rc) ==> o.conn.fields == c.fields
    ensures Accepted(q.exec.rc) && HasData(q) && !Accepted(q.numColsReply.rc) ==> o.conn.fields == c.fields
    ensures o.rc == 0 ==>
              o.conn.affectedRows == (if Accepted(q.rowCountReply.rc) then ToULong(q.rowCount) else MYSQL_COUNT_ERROR)
    ensures o.rc == -1 ==> Reports(o.conn, c.priv.value, FirstRejectedCall(q).value)
    ensures o.rc == 0 && Accepted(q.rowCountReply.rc) && SchemaAllocated(q, allocOk) ==>
              o.conn.errno == c.errno && o.conn.error == c.error
    ensures o.rc == 0 && Accepted(q.rowCountReply.rc) && !SchemaAllocated(q, allocOk) ==>
              o.conn.errno == CR_OUT_OF_MEMORY && o.conn.error == OUT_OF_MEMORY_TEXT
    ensures o.rc == 0 && !Accepted(q.rowCountReply.rc) ==> Reports(o.conn, c.priv.value, q.rowCountReply)
  {
    var p := c.priv.value;
    var c1 := c.(priv := Some(p.(prepared := false, haveData := false)));
    var t := Trap(c1, q.exec);
    if !t.ok then
      TrapFailureIsReported(c1, q.exec);
      RejectionMessageReadsHandles(c1.priv.value, p, q.exec);
      QueryOutcome(t.conn, -1, p.prepared)
    else
      var c2 := t.conn.(priv := Some(t.conn.priv.value.(prepared := true, haveData := HasData(q))));
      var o := ReadColumns(c2, q, allocOk, p.prepared);
      if o.rc == -1 then
        RejectionMessageReadsHandles(c2.priv.value, p, FirstRejectedCall(q).value); o
      else
        RejectionMessageReadsHandles(c2.priv.value, p, q.rowCountReply); o
  }

  /** `_impl_query`. The column attributes are read only for a positive count,
      and the allocation the loop writes into must then have succeeded:
      `_impl_query` does not check it. */
  function ExecQuery(c: Conn, q: QueryReplies, allocOk: bool): (o: QueryOutcome)
    requires q.numCols > 0 ==> |q.columns| >= q.numCols
    requires HasData(q) && q.numCols > 0 ==> allocOk
    ensures o.rc == 0 || o.rc == -1
    ensures o.rc == 0 <==> Db(c).ok && QueryAccepted(q)
    ensures o.closedPrevious <==> Db(c).ok && c.priv.value.prepared
    ensures !Db(c).ok ==> o.conn == Db(c).conn
    ensures Db(c).ok ==> o.conn.priv.Some?
    ensures Db(c).ok && Accepted(q.exec.rc) ==>
              o.conn.priv.value.prepared && (o.conn.priv.value.haveData <==> HasData(q))
    ensures Db(c).ok && !Accepted(q.exec.rc) ==>
              !o.conn.priv.value.prepared && !o.conn.priv.value.haveData
    ensures !Db(c).ok || !Accepted(q.exec.rc) ==> o.conn.fields == c.fields
    ensures Db(c).ok && Accepted(q.exec.rc) && HasData(q) && !Accepted(q.numColsReply.rc) ==>
              o.conn.fields == c.fields
    ensures o.rc == 0 ==>
              o.conn.affectedRows == (if Accepted(q.rowCountReply.rc) then ToULong(q.rowCount) else MYSQL_COUNT_ERROR)
    ensures o.rc == -1 ==> o.conn.errno in {CR_OUT_OF_MEMORY, CR_SERVER_LOST, CR_ODBC_ERROR, CR_UNKNOWN_ERROR}
    ensures Db(c).ok && o.rc == -1 ==> Reports(o.conn, c.priv.value, FirstRejectedCall(q).value)
    ensures o.rc == 0 && Accepted(q.rowCountReply.rc) && SchemaAllocated(q, allocOk) ==>
              o.conn.errno == 0 && o.conn.error == ""
    ensures o.rc == 0 && Accepted(q.rowCountReply.rc) && !SchemaAllocated(q, allocOk) ==>
              o.conn.errno == CR_OUT_OF_MEMORY && o.conn.error == OUT_OF_MEMORY_TEXT
    ensures o.rc == 0 && !Accepted(q.rowCountReply.rc) ==> Reports(o.conn, c.priv.value, q.rowCountReply)
  {
    var g := Db(c);
    if !g.ok then QueryOutcome(g.conn, -1, false)
    else
      var o := Execute(g.conn, q, allocOk);
      if o.rc == -1 then TrapFailureIsReported(g.conn, FirstRejectedCall(q).value); o else o
  }

  /** Describing a result keeps the three handles, clears `connected` only
      when the rejection it leaves reports an invalid handle, and keeps the
      affected-row count when it fails. */
  lemma DescribeResultKeepsHandles(c: Conn, q: QueryReplies, allocOk: bool, prev: bool)
    requires c.priv.Some?
    requires q.numCols > 0 ==> |q.columns| >= q.numCols
    requires HasData(q) && q.numCols > 0 ==> allocOk
    ensures var o := DescribeResult(c, q, allocOk, prev);
      && HandlesKept(c.priv.value, o.conn.priv.value, ReadRejection(q))
      && (o.rc == -1 ==> o.conn.affectedRows == c.affectedRows)
  {
    var a := AllocFields(c, SchemaCount(q), allocOk);
    var n := ColumnCount(q);
    var d := Describe(a.conn, q.columns, 0, n);
    if !d.ok {
      assert ReadRejection(q) == RejectedReply(q.columns[FirstRejectedColumn(q.columns, 0, n)]);
    } else {
      assert ReadRejection(q) == (if Accepted(q.rowCountReply.rc) then None else Some(q.rowCountReply));
    }
  }

  /** Reading the columns keeps the handles in the same way. */
  lemma ReadColumnsKeepsHandles(c: Conn, q: QueryReplies, allocOk: bool, prev: bool)
    requires c.priv.Some? && Accepted(q.exec.rc)
    requires q.numCols > 0 ==> |q.columns| >= q.numCols
    requires HasData(q) && q.numCols > 0 ==> allocOk
    ensures var o := ReadColumns(c, q, allocOk, prev);
      && HandlesKept(c.priv.value, o.conn.priv.value, QueryRejection(q))
      && (o.rc == -1 ==> o.conn.affectedRows == c.affectedRows)
  {
    var tn := if HasData(q) then Trap(c, q.numColsReply) else Checked(c, true);
    if tn.ok {
      DescribeResultKeepsHandles(tn.conn, q, allocOk, prev);
      assert HasData(q) ==> Accepted(q.numColsReply.rc);
    }
  }

  /** Executing a statement keeps the handles in the same way. */
  lemma ExecuteKeepsHandles(c: Conn, q: QueryReplies, allocOk: bool)
    requires c.priv.Some?
    requires q.numCols > 0 ==> |q.columns| >= q.numCols
    requires HasData(q) && q.numCols > 0 ==> allocOk
    ensures var o := Execute(c, q, allocOk);
      && HandlesKept(c.priv.value, o.conn.priv.value, QueryRejection(q))
      && (o.rc == -1 ==> o.conn.affectedRows == c.affectedRows)
  {
    var p := c.priv.value;
    var c1 := c.(priv := Some(p.(prepared := false, haveData := false)));
    var t := Trap(c1, q.exec);
    if t.ok {
      var c2 := t.conn.(priv := Some(t.conn.priv.value.(prepared := true, haveData := HasData(q))));
      ReadColumnsKeepsHandles(c2, q, allocOk, p.prepared);
    }
  }

  /** `_impl_query` keeps the environment, connection and statement handles;
      `connected` is cleared exactly when the rejection the statement leaves
      (the first rejected call, or else a rejected row count) reports an
      invalid handle; and a failed statement leaves the affected-row count
      alone, since the code returns before reading it. */
  lemma ExecQueryKeepsHandles(c: Conn, q: QueryReplies, allocOk: bool)
    requires q.numCols > 0 ==> |q.columns| >= q.numCols
    requires HasData(q) && q.numCols > 0 ==> allocOk
    ensures var o := ExecQuery(c, q, allocOk);
      && (Db(c).ok ==> HandlesKept(c.priv.value, o.conn.priv.value, QueryRejection(q)))
      && (o.rc == -1 ==> o.conn.affectedRows == c.affectedRows)
  {
    if Db(c).ok {
      ExecuteKeepsHandles(Db(c).conn, q, allocOk);
    }
  }

  /** A successful statement whose row-count read did not report an invalid
      handle leaves the connection usable: the next call's guard passes. */
  lemma QuerySuccessKeepsGuard(c: Conn, q: QueryReplies, allocOk: bool)
    requires q.numCols > 0 ==> |q.columns| >= q.numCols
    requires HasData(q) && q.numCols > 0 ==> allocOk
    requires ExecQuery(c, q, allocOk).rc == 0 && !q.rowCountReply.rc.InvalidHandle?
    ensures Db(ExecQuery(c, q, allocOk).conn).ok
  {
    ExecQueryKeepsHandles(c, q, allocOk);
  }

  /** A statement that returns no result set (SQL_NO_DATA from the execution)
      succeeds with an empty schema and without data, and skips the column
      count. */
  lemma QueryWithoutResultHasNoFields(c: Conn, q: QueryReplies, allocOk: bool)
    requires q.numCols > 0 ==> |q.columns| >= q.numCols
    requires Db(c).ok && q.exec.rc.NoData?
    ensures var o := ExecQuery(c, q, allocOk);
      o.rc == 0 && o.conn.fields == [] && !o.conn.priv.value.haveData && o.conn.priv.value.prepared
  {
  }

  /** After a successful statement with a non-negative column count there is
      one descriptor per column, each a non-numeric string column carrying the
      driver's table name, label and width, and nothing else set. */
  lemma QueryFieldsAreStrings(c: Conn, q: QueryReplies, allocOk: bool)
    requires q.numCols > 0 ==> |q.columns| >= q.numCols
    requires HasData(q) && q.numCols > 0 ==> allocOk
    requires HasData(q) ==> q.numCols >= 0
    requires ExecQuery(c, q, allocOk).rc == 0
    ensures var fs := ExecQuery(c, q, allocOk).conn.fields;
      && |fs| == ColumnCount(q)
      && forall j :: 0 <= j < |fs| ==>
           && fs[j].ftype == FIELD_TYPE_STRING && !IsNum(fs[j].ftype) && !InternalNumField(fs[j])
           && fs[j].table == Some(Prefix(q.columns[j].tableName, ATTR_MAX))
           && fs[j].name == Some(Prefix(q.columns[j].labelName, ATTR_MAX))
           && fs[j].length == DisplayLength(q.columns[j].displaySize)
           && fs[j].def.None? && fs[j].maxLength == 0 && fs[j].flags == 0 && fs[j].decimals == 0
  {
  }

  /** A rejected attribute read makes the statement fail, but the schema stays
      in place: the rejected column's descriptor keeps what it was given
      before the rejection, and the later ones stay zero. */
  lemma FailedColumnKeepsPartialSchema(c: Conn, q: QueryReplies, allocOk: bool)
    requires q.numCols > 0 && |q.columns| >= q.numCols && allocOk
    requires Db(c).ok && HasData(q) && Accepted(q.exec.rc) && Accepted(q.numColsReply.rc)
    requires FirstRejectedColumn(q.columns, 0, q.numCols) < q.numCols
    ensures var o := ExecQuery(c, q, allocOk);
      var m := FirstRejectedColumn(q.columns, 0, q.numCols);
      && o.rc == -1
      && |o.conn.fields| == q.numCols
      && o.conn.fields[m].ftype == FIELD_TYPE_STRING
      && (o.conn.fields[m].table.Some? <==> Accepted(q.columns[m].tableReply.rc))
      && o.conn.fields[m].length == 0
      && forall j :: m < j < q.numCols ==> o.conn.fields[j] == ZeroField
  {
  }

  /** A rejected row-count read does not fail the statement: it still returns
      0, marks the count unknown and leaves that call's error behind. */
  lemma RowCountFailureStillSucceeds(c: Conn, q: QueryReplies, allocOk: bool)
    requires q.numCols > 0 ==> |q.columns| >= q.numCols
    requires HasData(q) && q.numCols > 0 ==> allocOk
    requires Db(c).ok && QueryAccepted(q) && !Accepted(q.rowCountReply.rc)
    ensures var o := ExecQuery(c, q, allocOk);
      && o.rc == 0
      && o.conn.affectedRows == MYSQL_COUNT_ERROR
      && o.conn.errno in {CR_SERVER_LOST, CR_ODBC_ERROR, CR_UNKNOWN_ERROR}
      && Reports(o.conn, c.priv.value, q.rowCountReply)
  {
  }
}
