/**
 The handle lifecycle: allocation of the private state, the ODBC connect
 sequence (environment, connection, driver connect, statement), the ordered
 teardown, the close that wraps it, and `mysql_real_connect`, which builds the
 connect string and rolls everything back when a step fails.
 */
module Lifecycle {
  import opened Base
  import opened Header
  import opened Connection

  /** The ODBC releases issued by the teardown. */
  datatype OdbcCall = FreeStmt | Disconnect | FreeConnect | FreeEnv

  /** Position of a release in the teardown order. */
  function Rank(call: OdbcCall): nat {
    match call
    case FreeStmt => 0
    case Disconnect => 1
    case FreeConnect => 2
    case FreeEnv => 3
  }

  /** A connection after teardown, with the releases issued, in order. */
  datatype Teardown = Teardown(conn: Conn, calls: seq<OdbcCall>)

  /** `_alloc_db`: a zeroed private state, or NULL with an out-of-memory error. */
  function AllocDb(c: Conn, allocOk: bool): (r: Checked)
    ensures r.ok == allocOk
    ensures r.conn.fields == c.fields && r.conn.affectedRows == c.affectedRows
    ensures allocOk ==> r.conn.priv == Some(FreshPriv) && r.conn.errno == 0 && r.conn.error == ""
    ensures !allocOk ==> r.conn.priv.None? && r.conn.errno == CR_OUT_OF_MEMORY
  {
    if allocOk then Checked(SetError(c.(priv := Some(FreshPriv)), 0), true)
    else Checked(SetError(c.(priv := None), CR_OUT_OF_MEMORY), false)
  }

  /** The driver's answers to the four calls of `_connect_db`. */
  datatype ConnectReplies = ConnectReplies(
    allocEnv: Reply,
    allocConnect: Reply,
    driverConnect: Reply,
    allocStmt: Reply)

  /** Whether the whole connect sequence is accepted. */
  predicate AllAccepted(r: ConnectReplies) {
    Accepted(r.allocEnv.rc) && Accepted(r.allocConnect.rc)
    && Accepted(r.driverConnect.rc) && Accepted(r.allocStmt.rc)
  }

  /** The three handle slots of the private state. */
  datatype HandleKind = EnvHandle | DbcHandle | StmtHandle

  /** The private state with one handle slot set to non-null or null. */
  function WithHandle(p: Priv, k: HandleKind, present: bool): Priv {
    match k
    case EnvHandle => p.(env := present)
    case DbcHandle => p.(dbc := present)
    case StmtHandle => p.(stmt := present)
  }

  /** Whether a handle slot of the private state is non-null. */
  function HasHandle(p: Priv, k: HandleKind): bool {
    match k
    case EnvHandle => p.env
    case DbcHandle => p.dbc
    case StmtHandle => p.stmt
  }

  /** Setting one slot leaves the other slots and the three flags alone. */
  lemma WithHandleSetsOnlyItsSlot(p: Priv, k: HandleKind, present: bool)
    ensures HasHandle(WithHandle(p, k, present), k) == present
    ensures forall k' :: k' != k ==> HasHandle(WithHandle(p, k, present), k') == HasHandle(p, k')
    ensures WithHandle(p, k, present).(env := p.env, dbc := p.dbc, stmt := p.stmt) == p
  {
  }

  /** Run one allocation call: the handle it writes is non-null exactly when
      its return code is accepted, and the code is then trapped. */
  function AllocHandle(c: Conn, k: HandleKind, reply: Reply): (t: Checked)
    requires c.priv.Some?
    ensures t.conn.priv.Some?
    ensures t.ok <==> Accepted(reply.rc)
    ensures t.ok ==> t.conn.errno == c.errno && t.conn.error == c.error
    ensures !t.ok ==> t.conn.errno in {CR_SERVER_LOST, CR_ODBC_ERROR, CR_UNKNOWN_ERROR}
    ensures !t.ok ==> Reports(t.conn, WithHandle(c.priv.value, k, false), reply)
    ensures t.conn.fields == c.fields && t.conn.affectedRows == c.affectedRows
    ensures HasHandle(t.conn.priv.value, k) == Accepted(reply.rc)
    ensures forall k' :: k' != k ==> HasHandle(t.conn.priv.value, k') == HasHandle(c.priv.value, k')
    ensures t.conn.priv.value.connected == (c.priv.value.connected && !reply.rc.InvalidHandle?)
    ensures t.conn.priv.value.haveData == c.priv.value.haveData
    ensures t.conn.priv.value.prepared == c.priv.value.prepared
  {
    var c' := c.(priv := Some(WithHandle(c.priv.value, k, Accepted(reply.rc))));
    WithHandleSetsOnlyItsSlot(c.priv.value, k, Accepted(reply.rc));
    var t := Trap(c', reply);
    if t.ok then t else TrapFailureIsReported(c', reply); t
  }

  /** The error a failed `_connect_db` leaves: that of its first rejected
      call, read with the handles allocated before that call. */
  predicate ReportsConnectFailure(c: Conn, r: ConnectReplies) {
    if !Accepted(r.allocEnv.rc) then Reports(c, FreshPriv, r.allocEnv)
    else if !Accepted(r.allocConnect.rc) then Reports(c, FreshPriv.(env := true), r.allocConnect)
    else if !Accepted(r.driverConnect.rc) then Reports(c, FreshPriv.(env := true, dbc := true), r.driverConnect)
    else Reports(c, FreshPriv.(env := true, dbc := true), r.allocStmt)
  }

  /** `_connect_db`: environment, connection, driver connect, statement; the
      first rejected code ends the sequence with that code's error. Its one
      caller hands it the private state `_alloc_db` has just created. */
  function ConnectDb(c: Conn, r: ConnectReplies): (g: Checked)
    requires c.priv == Some(FreshPriv)
    ensures g.conn.priv.Some?
    ensures g.conn.fields == c.fields && g.conn.affectedRows == c.affectedRows
    ensures g.ok <==> AllAccepted(r)
    ensures g.ok ==> g.conn.errno == c.errno && g.conn.error == c.error
    ensures g.ok ==> var p := g.conn.priv.value; p.env && p.dbc && p.stmt && p.connected
    ensures !g.ok ==> g.conn.errno in {CR_SERVER_LOST, CR_ODBC_ERROR, CR_UNKNOWN_ERROR}
    ensures !g.ok ==> ReportsConnectFailure(g.conn, r)
    ensures g.conn.priv.value.env == Accepted(r.allocEnv.rc)
    ensures g.conn.priv.value.dbc == (Accepted(r.allocEnv.rc) && Accepted(r.allocConnect.rc))
    ensures g.conn.priv.value.stmt == AllAccepted(r)
  {
    var t1 := AllocHandle(c, EnvHandle, r.allocEnv);
    if !t1.ok then t1
    else
      var t2 := AllocHandle(t1.conn, DbcHandle, r.allocConnect);
      if !t2.ok then t2
      else
        var t3 := Trap(t2.conn, r.driverConnect);
        if !t3.ok then TrapFailureIsReported(t2.conn, r.driverConnect); t3
        else
          var c4 := t3.conn.(priv := Some(t3.conn.priv.value.(connected := true)));
          AllocHandle(c4, StmtHandle, r.allocStmt)
  }

  /** `_free_db`: release statement, disconnect if connected, release
      connection, release environment, skipping null handles; then drop the
      private state. Without private state it does nothing. */
  function FreeDb(c: Conn): (r: Teardown)
    ensures r.conn.priv.None?
    ensures r.conn == c.(priv := None)
    ensures c.priv.None? ==> r.calls == [] && r.conn == c
    ensures c.priv.Some? ==>
              && (FreeStmt in r.calls <==> c.priv.value.stmt)
              && (Disconnect in r.calls <==> c.priv.value.connected)
              && (FreeConnect in r.calls <==> c.priv.value.dbc)
              && (FreeEnv in r.calls <==> c.priv.value.env)
    ensures forall i, j :: 0 <= i < j < |r.calls| ==> Rank(r.calls[i]) < Rank(r.calls[j])
  {
    match c.priv
    case None => Teardown(c, [])
    case Some(p) =>
      var calls := (if p.stmt then [FreeStmt] else [])
                 + (if p.connected then [Disconnect] else [])
                 + (if p.dbc then [FreeConnect] else [])
                 + (if p.env then [FreeEnv] else []);
      Teardown(c.(priv := None), calls)
  }

  /** `_impl_close`: the teardown, then the field schema is freed. */
  function Close(c: Conn): (r: Teardown)
    ensures r.conn.priv.None? && r.conn.fields == []
    ensures r.conn.errno == c.errno && r.conn.error == c.error && r.conn.affectedRows == c.affectedRows
    ensures r.calls == FreeDb(c).calls
  {
    var t := FreeDb(c);
    Teardown(FreeFields(t.conn), t.calls)
  }

  /** Closing twice is harmless: the second close issues no release and
      changes nothing. */
  lemma CloseTwiceIsNoOp(c: Conn)
    ensures Close(Close(c).conn) == Teardown(Close(c).conn, [])
  {
  }

  /** The database name the connect string uses: `mysql` when none is given. */
  function DsnDatabase(db: Option<CString>): CString {
    if db.Some? && db.value != "" then db.value else "mysql"
  }

  function OrEmpty(s: Option<CString>): CString {
    if s.Some? then s.value else ""
  }

  /** Room in the 512-byte connect-string buffer, terminator excluded. */
  const DSN_MAX: nat := 511

  /** The connect string `mysql_real_connect` prints, cut to its buffer. */
  function Dsn(db: Option<CString>, user: Option<CString>, passwd: Option<CString>): (r: string)
    ensures |r| <= DSN_MAX
    ensures var j := JoinDsn(DsnDatabase(db), OrEmpty(user), OrEmpty(passwd));
      |r| == (if |j| <= DSN_MAX then |j| else DSN_MAX) && r == j[..|r|]
  {
    Prefix(JoinDsn(DsnDatabase(db), OrEmpty(user), OrEmpty(passwd)), DSN_MAX)
  }

  /** A password as long as the buffer does not fit: the string is cut to
      511 characters and still starts with the database key. */
  lemma DsnCutsLongPassword(db: Option<CString>, user: Option<CString>, passwd: Option<CString>)
    requires |OrEmpty(passwd)| >= DSN_MAX
    ensures |Dsn(db, user, passwd)| == DSN_MAX
    ensures Dsn(db, user, passwd)[..4] == "DSN="
  {
    var j := JoinDsn(DsnDatabase(db), OrEmpty(user), OrEmpty(passwd));
    assert j[..4] == "DSN=";
  }

  /** `s` holds `p` at position `i`. */
  predicate HasAt(s: string, i: nat, p: string) {
    i + |p| <= |s| && s[i..i + |p|] == p
  }

  /** This model's reading of a connect string: split it back into its three
      values, cutting each of the first two at the next `;`. How a driver
      manager parses the string is not part of this model. */
  function ParseDsn(s: string): Option<(string, string, string)> {
    if !HasAt(s, 0, "DSN=") then None
    else match FindChar(s, ';', 4)
      case None => None
      case Some(i) =>
        if !HasAt(s, i, ";UID=") then None
        else match FindChar(s, ';', i + 5)
          case None => None
          case Some(j) =>
            if !HasAt(s, j, ";PWD=") then None
            else Some((s[4..i], s[i + 5..j], s[j + 5..]))
  }

  /** The connect string before it is cut to its buffer. */
  function JoinDsn(d: string, u: string, w: string): string {
    "DSN=" + d + ";UID=" + u + ";PWD=" + w
  }

  /** Where the characters of the three values sit in the joined string. */
  lemma JoinedDsnLayout(d: string, u: string, w: string)
    ensures var s := JoinDsn(d, u, w); var i := 4 + |d|; var j := i + 5 + |u|;
      && |s| == j + 5 + |w|
      && s[..4] == "DSN=" && s[i..i + 5] == ";UID=" && s[j..j + 5] == ";PWD="
      && s[4..i] == d && s[i + 5..j] == u && s[j + 5..] == w
  {
  }

  /** The first `;` after the start of a `;`-free value is the one that ends
      it. */
  lemma SeparatorAfter(s: string, from: nat, x: string)
    requires from + |x| < |s| && s[from..from + |x|] == x && s[from + |x|] == ';'
    requires forall k :: 0 <= k < |x| ==> x[k] != ';'
    ensures FindChar(s, ';', from) == Some(from + |x|)
  {
    forall k | from <= k < from + |x|
      ensures s[k] != ';'
    {
      assert s[k] == x[k - from];
    }
    Messages.FindCharAt(s, ';', from, from + |x|);
  }

  /** A connect string whose database and user hold no `;` splits back into
      its three values. */
  lemma ParseJoinedDsn(d: string, u: string, w: string)
    requires forall k :: 0 <= k < |d| ==> d[k] != ';'
    requires forall k :: 0 <= k < |u| ==> u[k] != ';'
    ensures ParseDsn(JoinDsn(d, u, w)) == Some((d, u, w))
  {
    var s := JoinDsn(d, u, w);
    var i := 4 + |d|;
    var j := i + 5 + |u|;
    JoinedDsnLayout(d, u, w);
    assert s[i] == ';' by { assert s[i..i + 5][0] == ';'; }
    assert s[j] == ';' by { assert s[j..j + 5][0] == ';'; }
    SeparatorAfter(s, 4, d);
    SeparatorAfter(s, i + 5, u);
    assert HasAt(s, 0, "DSN=") && HasAt(s, i, ";UID=") && HasAt(s, j, ";PWD=");
  }

  /** When the database and user names hold no `;` and the whole string fits
      its buffer, `ParseDsn` reads back exactly the values that were given. */
  lemma DsnRoundTrip(db: Option<CString>, user: Option<CString>, passwd: Option<CString>)
    requires forall k :: 0 <= k < |DsnDatabase(db)| ==> DsnDatabase(db)[k] != ';'
    requires forall k :: 0 <= k < |OrEmpty(user)| ==> OrEmpty(user)[k] != ';'
    requires 4 + |DsnDatabase(db)| + 5 + |OrEmpty(user)| + 5 + |OrEmpty(passwd)| <= DSN_MAX
    ensures ParseDsn(Dsn(db, user, passwd)) == Some((DsnDatabase(db), OrEmpty(user), OrEmpty(passwd)))
  {
    var d, u, w := DsnDatabase(db), OrEmpty(user), OrEmpty(passwd);
    assert Dsn(db, user, passwd) == JoinDsn(d, u, w);
    ParseJoinedDsn(d, u, w);
  }

  /** Nothing is escaped: a user name `u;PWD=x` hides the password the caller
      meant, and `ParseDsn` reads `u` as the user and `x;PWD=...` as the
      password. */
  lemma DsnDoesNotEscape(db: Option<CString>, u: CString, x: CString, passwd: Option<CString>)
    requires forall k :: 0 <= k < |DsnDatabase(db)| ==> DsnDatabase(db)[k] != ';'
    requires forall k :: 0 <= k < |u| ==> u[k] != ';'
    requires 4 + |DsnDatabase(db)| + 5 + |u| + 5 + |x| + 5 + |OrEmpty(passwd)| <= DSN_MAX
    ensures ParseDsn(Dsn(db, Some(u + ";PWD=" + x), passwd))
            == Some((DsnDatabase(db), u, x + ";PWD=" + OrEmpty(passwd)))
  {
    var d, w := DsnDatabase(db), OrEmpty(passwd);
    assert Dsn(db, Some(u + ";PWD=" + x), passwd) == JoinDsn(d, u + ";PWD=" + x, w);
    assert JoinDsn(d, u + ";PWD=" + x, w) == JoinDsn(d, u, x + ";PWD=" + w);
    ParseJoinedDsn(d, u, x + ";PWD=" + w);
  }

  /** What `mysql_real_connect` leaves: the connection (NULL is `ok == false`),
      the connect string handed to the driver and the releases a failure
      rolled back with. */
  datatype ConnectOutcome = ConnectOutcome(conn: Conn, ok: bool, dsn: string, released: seq<OdbcCall>)

  /** `_impl_real_connect`: mark the affected-row count unknown, build the
      connect string, allocate and connect; on any failure run the close path
      on whatever was allocated. */
  function RealConnect(c: Conn, db: Option<CString>, user: Option<CString>, passwd: Option<CString>,
                       allocOk: bool, r: ConnectReplies): (o: ConnectOutcome)
    ensures o.dsn == Dsn(db, user, passwd)
    ensures o.conn.affectedRows == MYSQL_COUNT_ERROR
    ensures o.ok <==> allocOk && AllAccepted(r)
    ensures o.ok ==> o.conn.errno == 0 && o.conn.error == "" && o.released == []
    ensures o.ok ==> o.conn.priv.Some? && var p := o.conn.priv.value; p.env && p.dbc && p.stmt && p.connected
    ensures !o.ok ==> o.conn.priv.None? && o.conn.fields == []
    ensures !o.ok ==> o.conn.errno in {CR_OUT_OF_MEMORY, CR_SERVER_LOST, CR_ODBC_ERROR, CR_UNKNOWN_ERROR}
    ensures !allocOk ==> o.conn.errno == CR_OUT_OF_MEMORY && o.conn.error == OUT_OF_MEMORY_TEXT
    ensures allocOk && !AllAccepted(r) ==> ReportsConnectFailure(o.conn, r)
  {
    var dsn := Dsn(db, user, passwd);
    var a := AllocDb(c.(affectedRows := MYSQL_COUNT_ERROR), allocOk);
    if !a.ok then
      var t := Close(a.conn);
      ConnectOutcome(t.conn, false, dsn, t.calls)
    else
      var b := ConnectDb(a.conn, r);
      if !b.ok then
        var t := Close(b.conn);
        ConnectOutcome(t.conn, false, dsn, t.calls)
      else ConnectOutcome(b.conn, true, dsn, [])
  }

  /** A failed connect releases exactly what it had allocated: the
      environment once it was accepted, the connection once both allocations
      were, a disconnect once the driver connect was accepted and the
      statement allocation did not invalidate the handle, and never a
      statement. */
  lemma FailedConnectReleasesWhatWasAllocated(c: Conn, db: Option<CString>, user: Option<CString>,
                                              passwd: Option<CString>, allocOk: bool, r: ConnectReplies)
    requires !RealConnect(c, db, user, passwd, allocOk, r).ok
    ensures var rel := RealConnect(c, db, user, passwd, allocOk, r).released;
      && (FreeEnv in rel <==> allocOk && Accepted(r.allocEnv.rc))
      && (FreeConnect in rel <==> allocOk && Accepted(r.allocEnv.rc) && Accepted(r.allocConnect.rc))
      && (Disconnect in rel <==> allocOk && Accepted(r.allocEnv.rc) && Accepted(r.allocConnect.rc)
                                 && Accepted(r.driverConnect.rc) && !r.allocStmt.rc.InvalidHandle?)
      && FreeStmt !in rel
  {
    if allocOk {
      var a := AllocDb(c.(affectedRows := MYSQL_COUNT_ERROR), allocOk);
      var b := ConnectDb(a.conn, r);
      ConnectedFlag(a.conn, r);
    }
  }

  /** After `_connect_db` the connected flag is set exactly when the driver
      connect was accepted and the statement allocation did not report an
      invalid handle. */
  lemma ConnectedFlag(c: Conn, r: ConnectReplies)
    requires c.priv == Some(FreshPriv)
    ensures ConnectDb(c, r).conn.priv.value.connected <==>
              Accepted(r.allocEnv.rc) && Accepted(r.allocConnect.rc)
              && Accepted(r.driverConnect.rc) && !r.allocStmt.rc.InvalidHandle?
  {
  }
}
