/**
 The connection entity and the diagnostic normaliser. A `Conn` is the part of
 the client's `MYSQL` structure the bridge reads and writes: the single
 last-error slot, the private ODBC state (environment, connection and
 statement handles and three flags), the current field schema and the
 affected-row count. Every ODBC call is an oracle: its return code together
 with the diagnostic records the driver would hand out afterwards.
 */
module Connection {
  import opened Base
  import opened Header
  import opened Messages

  // Error numbers of the client library, and the bridge's own.
  const CR_UNKNOWN_ERROR: nat := 2000
  const CR_OUT_OF_MEMORY: nat := 2008
  const CR_SERVER_LOST: nat := 2013
  const CR_ODBC_ERROR: nat := 9999

  const OUT_OF_MEMORY_TEXT: string := "MySQL client run out of memory"
  const UNKNOWN_ERROR_TEXT: string := "Unknown MySQL error"
  const SERVER_LOST_TEXT: string := "MySQL server has gone away"

  /** A `SQLRETURN` value other than SQL_SUCCESS (0), SQL_SUCCESS_WITH_INFO
      (1), SQL_NO_DATA (100), SQL_ERROR (-1) and SQL_INVALID_HANDLE (-2). */
  type OtherCode = x: int | x != 0 && x != 1 && x != 100 && x != -1 && x != -2 witness 2

  /** `SQLRETURN`: the five codes the bridge tells apart, and any other. */
  datatype SqlReturn = Success | SuccessWithInfo | NoData | InvalidHandle | Error | Other(code: OtherCode)

  /** Codes `_trap_sqlerror` lets through. */
  predicate Accepted(rc: SqlReturn) {
    rc.Success? || rc.SuccessWithInfo? || rc.NoData?
  }

  /** The records `SQLError` would return, scope by scope, until it stops
      answering SQL_SUCCESS. */
  datatype Diags = Diags(stmt: seq<CString>, dbc: seq<CString>, env: seq<CString>)

  /** What one ODBC call answers: its return code and the records it leaves. */
  datatype Reply = Reply(rc: SqlReturn, diags: Diags)

  /** `TSQLPrivate`: which handles are allocated (non-null) and the three flags. */
  datatype Priv = Priv(
    env: bool,
    dbc: bool,
    stmt: bool,
    connected: bool,
    haveData: bool,
    prepared: bool)

  /** The private state right after `calloc`: no handle, every flag clear. */
  const FreshPriv: Priv := Priv(false, false, false, false, false, false)

  /** The bridge's view of a `MYSQL` connection. `priv` is the private pointer
      stashed in `net.vio`; `fields` is the schema of the last query, where the
      empty sequence stands for a NULL array, so `|fields|` is `field_count`;
      `affectedRows` is a `my_ulonglong`. */
  datatype Conn = Conn(
    errno: nat,
    error: string,
    priv: Option<Priv>,
    fields: seq<Field>,
    affectedRows: nat)

  /** A connection after a step that can fail, and whether it succeeded. */
  datatype Checked = Checked(conn: Conn, ok: bool)

  /** `mysql_init`: a zero-filled structure. */
  function InitConn(): (c: Conn)
    ensures c.errno == 0 && c.error == "" && c.priv.None?
    ensures c.fields == [] && c.affectedRows == 0
  {
    Conn(0, "", None, [], 0)
  }

  /** The fixed text `_set_error` stores for an error number. */
  function ErrorText(err: nat): string {
    if err == CR_OUT_OF_MEMORY then OUT_OF_MEMORY_TEXT
    else if err == CR_UNKNOWN_ERROR then UNKNOWN_ERROR_TEXT
    else if err == CR_SERVER_LOST then SERVER_LOST_TEXT
    else ""
  }

  /** `_set_error`: overwrite the last-error slot and nothing else. */
  function SetError(c: Conn, err: nat): (r: Conn)
    ensures r.errno == err && r.error == ErrorText(err)
    ensures r.priv == c.priv && r.fields == c.fields && r.affectedRows == c.affectedRows
  {
    c.(errno := err, error := ErrorText(err))
  }

  /** Only the three client error numbers have a text; all others, 0 and the
      bridge's 9999 among them, clear the message. Every text fits the slot. */
  lemma ErrorTextCases(err: nat)
    ensures ErrorText(err) != "" <==> err in {CR_OUT_OF_MEMORY, CR_UNKNOWN_ERROR, CR_SERVER_LOST}
    ensures ErrorText(CR_ODBC_ERROR) == "" && ErrorText(0) == ""
    ensures |ErrorText(err)| <= MAX_MESSAGE
  {
  }

  /** The diagnostic chain in the order `_fetch_db_errors` reads it: statement
      records, then connection records, then environment records, each scope
      consulted only if its handle is allocated. */
  function Harvest(p: Priv, d: Diags): (r: seq<CString>)
    ensures |r| == (if p.stmt then |d.stmt| else 0) + (if p.dbc then |d.dbc| else 0)
                   + (if p.env then |d.env| else 0)
    ensures var ns := if p.stmt then |d.stmt| else 0;
      forall k :: 0 <= k < ns ==> r[k] == d.stmt[k]
    ensures var ns := if p.stmt then |d.stmt| else 0;
      var nc := if p.dbc then |d.dbc| else 0;
      forall k :: 0 <= k < nc ==> r[ns + k] == d.dbc[k]
    ensures var nsc := (if p.stmt then |d.stmt| else 0) + (if p.dbc then |d.dbc| else 0);
      var ne := if p.env then |d.env| else 0;
      forall k :: 0 <= k < ne ==> r[nsc + k] == d.env[k]
  {
    (if p.stmt then d.stmt else []) + (if p.dbc then d.dbc else []) + (if p.env then d.env else [])
  }

  /** The record a reader would pick by scope priority: the first statement
      record if there is one, else the first connection record, else the first
      environment record. */
  function FirstRecord(p: Priv, d: Diags): Option<CString> {
    if p.stmt && |d.stmt| > 0 then Some(d.stmt[0])
    else if p.dbc && |d.dbc| > 0 then Some(d.dbc[0])
    else if p.env && |d.env| > 0 then Some(d.env[0])
    else None
  }

  /** Keeping only the first record of the whole chain (`copy == NULL`) picks
      the record with the highest scope priority, and finds none exactly when
      every consulted scope is empty. */
  lemma HarvestHeadIsFirstRecord(p: Priv, d: Diags)
    ensures |Harvest(p, d)| > 0 <==> FirstRecord(p, d).Some?
    ensures |Harvest(p, d)| > 0 ==> Harvest(p, d)[0] == FirstRecord(p, d).value
  {
    var s := if p.stmt then d.stmt else [];
    var c := if p.dbc then d.dbc else [];
    var e := if p.env then d.env else [];
    assert Harvest(p, d) == s + c + e;
    if |s| == 0 {
      assert s + c + e == c + e;
      if |c| == 0 {
        assert c + e == e;
      }
    }
  }

  /** `_fetch_db_errors`: read the whole chain; if `save` is set and there is a
      record, store the clean-up of the first one as the message. */
  function FetchDbErrors(c: Conn, d: Diags, save: bool): (r: Conn)
    requires c.priv.Some?
    ensures r.errno == c.errno && r.priv == c.priv && r.fields == c.fields
    ensures r.affectedRows == c.affectedRows
    ensures save && FirstRecord(c.priv.value, d).Some? ==>
              r.error == CleanMessage(FirstRecord(c.priv.value, d).value)
    ensures !save || FirstRecord(c.priv.value, d).None? ==> r == c
  {
    HarvestHeadIsFirstRecord(c.priv.value, d);
    var chain := Harvest(c.priv.value, d);
    if save && |chain| > 0 then c.(error := CleanMessage(chain[0])) else c
  }

  /** The message an SQL error leaves: the clean-up of its first record, or
      nothing when no scope had a record (`_set_error` cleared the slot). */
  function ErrorMessage(p: Priv, d: Diags): string {
    match FirstRecord(p, d)
    case Some(m) => CleanMessage(m)
    case None => ""
  }

  /** The error number a rejected code leaves: 2013 for an invalid handle,
      9999 for an SQL error, 2000 for any other code. */
  function ErrorNumber(rc: SqlReturn): nat {
    if rc.InvalidHandle? then CR_SERVER_LOST
    else if rc.Error? then CR_ODBC_ERROR
    else CR_UNKNOWN_ERROR
  }

  /** The message a rejected reply leaves when the handles of `p` are the
      allocated ones: the fixed text of its number, or for an SQL error the
      cleaned first record. */
  function RejectionMessage(p: Priv, reply: Reply): string {
    if reply.rc.Error? then ErrorMessage(p, reply.diags) else ErrorText(ErrorNumber(reply.rc))
  }

  /** `c` carries the error that `reply` leaves, rejected with the handles
      of `p` allocated. */
  predicate Reports(c: Conn, p: Priv, reply: Reply) {
    c.errno == ErrorNumber(reply.rc) && c.error == RejectionMessage(p, reply)
  }

  /** `_trap_sqlerror`: classify a return code. */
  function Trap(c: Conn, reply: Reply): (t: Checked)
    requires c.priv.Some?
    ensures t.ok <==> Accepted(reply.rc)
    ensures t.ok ==> t.conn == c
    ensures t.conn.fields == c.fields && t.conn.affectedRows == c.affectedRows
    ensures t.conn.priv == (if reply.rc.InvalidHandle? then Some(c.priv.value.(connected := false)) else c.priv)
    ensures reply.rc.InvalidHandle? ==> t.conn.errno == CR_SERVER_LOST && t.conn.error == SERVER_LOST_TEXT
    ensures reply.rc.Error? ==> t.conn.errno == CR_ODBC_ERROR
    ensures reply.rc.Error? ==> t.conn.error == ErrorMessage(c.priv.value, reply.diags)
    ensures reply.rc.Other? ==> t.conn.errno == CR_UNKNOWN_ERROR && t.conn.error == UNKNOWN_ERROR_TEXT
  {
    match reply.rc
    case Success => Checked(c, true)
    case NoData => Checked(c, true)
    case SuccessWithInfo => Checked(FetchDbErrors(c, reply.diags, false), true)
    case InvalidHandle =>
      var e := SetError(c, CR_SERVER_LOST);
      Checked(e.(priv := Some(e.priv.value.(connected := false))), false)
    case Error => Checked(FetchDbErrors(SetError(c, CR_ODBC_ERROR), reply.diags, true), false)
    case Other(_) => Checked(SetError(c, CR_UNKNOWN_ERROR), false)
  }

  /** A rejected code always leaves one of the three bridge-level error
      numbers behind, the one its code calls for, with the message
      `RejectionMessage` gives; that message is empty only for an SQL error
      whose first record cleans up to nothing or that left no record at all. */
  lemma TrapFailureIsReported(c: Conn, reply: Reply)
    requires c.priv.Some?
    requires !Trap(c, reply).ok
    ensures Trap(c, reply).conn.errno in {CR_SERVER_LOST, CR_ODBC_ERROR, CR_UNKNOWN_ERROR}
    ensures Trap(c, reply).conn.errno == ErrorNumber(reply.rc)
    ensures Reports(Trap(c, reply).conn, c.priv.value, reply)
    ensures Trap(c, reply).conn.error == "" ==> reply.rc.Error?
    ensures |Trap(c, reply).conn.error| <= MAX_MESSAGE
  {
  }

  /** `_free_fields`: release the field schema, leaving a NULL array and a
      zero count; everything else is kept. */
  function FreeFields(c: Conn): (r: Conn)
    ensures r.fields == []
    ensures r.errno == c.errno && r.error == c.error && r.priv == c.priv
    ensures r.affectedRows == c.affectedRows
  {
    c.(fields := [])
  }

  /** Whether a rejection happened and reported an invalid handle. */
  predicate LosesConnection(rejected: Option<Reply>) {
    rejected.Some? && rejected.value.rc.InvalidHandle?
  }

  /** The private state after trapped calls whose one rejection, if any, is
      `rejected`: the three handles are kept, and `connected` is cleared
      exactly when that rejection reports an invalid handle. */
  predicate HandlesKept(p: Priv, q: Priv, rejected: Option<Reply>) {
    && q.env == p.env && q.dbc == p.dbc && q.stmt == p.stmt
    && q.connected == (p.connected && !LosesConnection(rejected))
  }

  /** `HandlesKept`, with the prepared and data flags kept as well: the
      private state changes at most in `connected`. */
  predicate PrivKept(p: Priv, q: Priv, rejected: Option<Reply>) {
    HandlesKept(p, q, rejected) && q.prepared == p.prepared && q.haveData == p.haveData
  }

  /** The error a rejection leaves depends only on which handles are
      allocated, so clearing or setting a flag in between changes nothing. */
  lemma RejectionMessageReadsHandles(p: Priv, q: Priv, reply: Reply)
    requires p.env == q.env && p.dbc == q.dbc && p.stmt == q.stmt
    ensures RejectionMessage(p, reply) == RejectionMessage(q, reply)
  {
  }

  /** `_db`: the guard every query-dependent call passes first. */
  function Db(c: Conn): (g: Checked)
    ensures g.ok <==> c.priv.Some? && c.priv.value.connected && c.priv.value.stmt
    ensures g.conn.priv == c.priv && g.conn.fields == c.fields && g.conn.affectedRows == c.affectedRows
    ensures c.priv.None? ==> g.conn.errno == CR_OUT_OF_MEMORY && g.conn.error == OUT_OF_MEMORY_TEXT
    ensures c.priv.Some? && !g.ok ==> g.conn.errno == CR_SERVER_LOST && g.conn.error == SERVER_LOST_TEXT
    ensures g.ok ==> g.conn.errno == 0 && g.conn.error == ""
  {
    match c.priv
    case None => Checked(SetError(c, CR_OUT_OF_MEMORY), false)
    case Some(p) =>
      if !p.connected || !p.stmt then Checked(SetError(c, CR_SERVER_LOST), false)
      else Checked(SetError(c, 0), true)
  }
}
