/** Layering of the Postgres parameters: audit values, defaults, user values, shared buffers. */
module Parameters {
  import opened Kube

  /** The parameters the code itself writes; every other name a user may give is an `Other`. */
  datatype Name =
    | SharedPreloadLibraries | PgauditLogCatalog | PgauditLog | PgauditLogRelation | PgauditLogParameter
    | LogStatement | LogErrorVerbosity | LogFileMode | LogLinePrefix | LogMinErrorStatement
    | PasswordEncryption | PgStatStatementsMax | SslCiphers | SslPreferServerCiphers
    | TcpKeepalivesIdle | TcpKeepalivesInterval | SslMinProtocolVersion
    | WalKeepSize | MaxSlotWalKeepSize | WalKeepSegments | SharedBuffers
    | Other(name: string)

  type Params = map<Name, string>

  const MEBIBYTE: int := 1024 * 1024
  const MIN_SHARED_BUFFERS: int := 32 * MEBIBYTE

  const PRELOAD_LIBRARIES := "pg_stat_statements,pgextwlist,pg_auth_mon,set_user,timescaledb,pg_cron,pg_stat_kcache,pgaudit"
  const LINE_PREFIX := "%m [%p]: [%l-1] db=%d,user=%u,app=%a,client=%h "
  const SSL_CIPHERS := "ECDHE-ECDSA-AES128-GCM-SHA256:ECDHE-RSA-AES128-GCM-SHA256:ECDHE-ECDSA-AES256-GCM-SHA384:ECDHE-RSA-AES256-GCM-SHA384:ECDHE-ECDSA-CHACHA20-POLY1305:ECDHE-RSA-CHACHA20-POLY1305:DHE-RSA-AES128-GCM-SHA256:DHE-RSA-AES256-GCM-SHA384"

  const VERBOSE := "VERBOSE"
  const LOG_FILE_MODE := "0600"
  const WARNING := "WARNING"
  const SCRAM := "scram-sha-256"
  const STATEMENTS_MAX := "500"
  const KEEPALIVES_IDLE := "200"
  const KEEPALIVES_INTERVAL := "30"
  const ON := "on"
  const OFF := "off"
  const AUDIT_LOG := "ddl,role"
  const NO_STATEMENTS := "none"
  const TLS_1_2 := "TLSv1.2"
  const WAL_KEEP_SIZE := "1GB"
  const WAL_KEEP_SEGMENTS := "64"

  // ------------------------------------------------- what each layer says about one key

  function Lookup(m: Params, k: Name): Option<string> {
    if k in m then Some(m[k]) else None
  }

  /** The first value wins. */
  function Over(upper: Option<string>, lower: Option<string>): Option<string> {
    if upper.Some? then upper else lower
  }

  function AuditValue(k: Name): Option<string> {
    match k
    case SharedPreloadLibraries => Some(PRELOAD_LIBRARIES)
    case PgauditLogCatalog => Some(OFF)
    case PgauditLog => Some(AUDIT_LOG)
    case PgauditLogRelation => Some(ON)
    case PgauditLogParameter => Some(ON)
    case LogStatement => Some(NO_STATEMENTS)
    case _ => None
  }

  function LogDefault(k: Name): Option<string> {
    match k
    case LogErrorVerbosity => Some(VERBOSE)
    case LogFileMode => Some(LOG_FILE_MODE)
    case LogLinePrefix => Some(LINE_PREFIX)
    case LogMinErrorStatement => Some(WARNING)
    case _ => None
  }

  function ConnectionDefault(k: Name): Option<string> {
    match k
    case PasswordEncryption => Some(SCRAM)
    case PgStatStatementsMax => Some(STATEMENTS_MAX)
    case SslCiphers => Some(SSL_CIPHERS)
    case SslPreferServerCiphers => Some(ON)
    case TcpKeepalivesIdle => Some(KEEPALIVES_IDLE)
    case TcpKeepalivesInterval => Some(KEEPALIVES_INTERVAL)
    case _ => None
  }

  /** `version` is the parsed Postgres version, `None` when the string is not a number. */
  function VersionDefault(k: Name, version: Option<int>): Option<string> {
    match k
    case SslMinProtocolVersion => if version.Some? && version.value >= 12 then Some(TLS_1_2) else None
    case WalKeepSize => if version.Some? && version.value >= 13 then Some(WAL_KEEP_SIZE) else None
    case MaxSlotWalKeepSize => if version.Some? && version.value >= 13 then Some(WAL_KEEP_SIZE) else None
    case WalKeepSegments => if version.Some? && version.value < 13 then Some(WAL_KEEP_SEGMENTS) else None
    case _ => None
  }

  function DefaultValue(k: Name, version: Option<int>): Option<string> {
    Over(VersionDefault(k, version), Over(ConnectionDefault(k), LogDefault(k)))
  }

  function UserValue(k: Name, provided: Params, blocked: set<Name>): Option<string> {
    if k in blocked then None else Lookup(provided, k)
  }

  /** `bytes` is the parsed shared buffer size, `None` when it cannot be parsed. */
  function SizeValue(k: Name, bytes: Option<int>): Option<string> {
    if k == SharedBuffers && bytes.Some? && bytes.value >= MIN_SHARED_BUFFERS
    then Some(Decimal(bytes.value / MEBIBYTE) + "MB")
    else None
  }

  /** Decimal notation without leading zeros. */
  function Decimal(n: nat): string {
    if n < 10 then [Digit(n)] else Decimal(n / 10) + [Digit(n % 10)]
  }

  function Digit(n: nat): char
    requires n < 10
  {
    '0' + n as char
  }

  /** The precedence: a valid shared buffer size, then the user's value unless the key is blocked,
      then the default for the version, then the audit value unless auditing is switched off. */
  function FinalValue(k: Name, audit: Option<bool>, version: Option<int>, provided: Params, blocked: set<Name>,
                      bytes: Option<int>): Option<string>
  {
    Over(SizeValue(k, bytes),
         Over(UserValue(k, provided, blocked),
              Over(DefaultValue(k, version), if audit == Some(false) then None else AuditValue(k))))
  }

  // ------------------------------------------------- the setters

  /** The map that is handed from one setter to the next. */
  class ParameterMap {
    var params: Params

    constructor ()
      ensures params == map[]
    {
      params := map[];
    }

    method EnableAuditLogs()
      modifies this
      ensures forall k :: Lookup(params, k) == Over(AuditValue(k), Lookup(old(params), k))
    {
      params := params[SharedPreloadLibraries := PRELOAD_LIBRARIES];
      params := params[PgauditLogCatalog := OFF];
      params := params[PgauditLog := AUDIT_LOG];
      params := params[PgauditLogRelation := ON];
      params := params[PgauditLogParameter := ON];
      params := params[LogStatement := NO_STATEMENTS];
    }

    /** One list of assignments in the source; cut here into its three groups. */
    method SetDefaultPostgresParams(version: Option<int>)
      modifies this
      ensures forall k :: Lookup(params, k) == Over(DefaultValue(k, version), Lookup(old(params), k))
    {
      SetLogDefaults();
      SetConnectionDefaults();
      SetVersionDefaults(version);
    }

    method SetLogDefaults()
      modifies this
      ensures forall k :: Lookup(params, k) ==
                Over(LogDefault(k), Lookup(old(params), k))
    {
      params := params[LogErrorVerbosity := VERBOSE];
      params := params[LogFileMode := LOG_FILE_MODE];
      params := params[LogLinePrefix := LINE_PREFIX];
      params := params[LogMinErrorStatement := WARNING];
    }

    method SetConnectionDefaults()
      modifies this
      ensures forall k :: Lookup(params, k) ==
                Over(ConnectionDefault(k), Lookup(old(params), k))
    {
      params := params[PasswordEncryption := SCRAM];
      params := params[PgStatStatementsMax := STATEMENTS_MAX];
      params := params[SslCiphers := SSL_CIPHERS];
      params := params[SslPreferServerCiphers := ON];
      params := params[TcpKeepalivesIdle := KEEPALIVES_IDLE];
      params := params[TcpKeepalivesInterval := KEEPALIVES_INTERVAL];
    }

    /** Nothing is added when the version is not a number. */
    method SetVersionDefaults(version: Option<int>)
      modifies this
      ensures forall k :: Lookup(params, k) ==
                Over(VersionDefault(k, version), Lookup(old(params), k))
    {
      if version.None? {
        return;
      }
      if version.value >= 12 {
        params := params[SslMinProtocolVersion := TLS_1_2];
      }
      if version.value >= 13 {
        params := params[WalKeepSize := WAL_KEEP_SIZE];
        params := params[MaxSlotWalKeepSize := WAL_KEEP_SIZE];
      } else {
        params := params[WalKeepSegments := WAL_KEEP_SEGMENTS];
      }
    }

    /** The range loop visits the user's keys in an order nobody knows. */
    method SetPostgresParams(provided: Params, blocked: set<Name>)
      modifies this
      ensures forall k :: Lookup(params, k) == Over(UserValue(k, provided, blocked), Lookup(old(params), k))
    {
      var rest := provided.Keys;
      while rest != {}
        invariant rest <= provided.Keys
        invariant forall k :: Lookup(params, k) ==
                    if k in rest then Lookup(old(params), k)
                    else Over(UserValue(k, provided, blocked), Lookup(old(params), k))
        decreases rest
      {
        var k :| k in rest;
        rest := rest - {k};
        if k in blocked {
          continue;
        }
        params := params[k := provided[k]];
      }
    }

    method SetSharedBufferSize(bytes: Option<int>)
      modifies this
      ensures forall k :: Lookup(params, k) == Over(SizeValue(k, bytes), Lookup(old(params), k))
    {
      if bytes.Some? {
        var sizeInBytes := bytes.value;
        if sizeInBytes >= 32 * 1024 * 1024 {
          var sizeInMB := sizeInBytes / (1024 * 1024);
          params := params[SharedBuffers := Decimal(sizeInMB) + "MB"];
        }
      }
    }
  }

  /** The four setters in their order of use give every key the value of the precedence rule. */
  method BuildParameters(audit: Option<bool>, version: Option<int>, provided: Params, blocked: set<Name>,
                         bytes: Option<int>) returns (params: Params)
    ensures forall k :: Lookup(params, k) == FinalValue(k, audit, version, provided, blocked, bytes)
    ensures forall k :: k in provided && k !in blocked && k != SharedBuffers ==> Lookup(params, k) == Some(provided[k])
    ensures forall k :: k in blocked || k !in provided ==> Lookup(params, k) == FinalValue(k, audit, version, map[], {}, bytes)
    ensures bytes.Some? && bytes.value >= 32 * 1024 * 1024 ==>
      Lookup(params, SharedBuffers) == Some(Decimal(bytes.value / (1024 * 1024)) + "MB")
    ensures (bytes.None? || bytes.value < 32 * 1024 * 1024) && SharedBuffers in provided && SharedBuffers !in blocked ==>
      Lookup(params, SharedBuffers) == Some(provided[SharedBuffers])
    ensures audit == Some(false) ==> forall k :: (k in blocked || k !in provided) && k != SharedBuffers ==> Lookup(params, k) == DefaultValue(k, version)
  {
    var m := new ParameterMap();
    if audit.None? || audit.value {
      m.EnableAuditLogs();
    }
    m.SetDefaultPostgresParams(version);
    m.SetPostgresParams(provided, blocked);
    m.SetSharedBufferSize(bytes);
    params := m.params;
  }

  // ------------------------------------------------- properties

  /** What depends on the version: from 12 on the TLS version, from 13 on the sizes, before 13 the number of
      segments, and nothing at all if the version is not a number. */
  lemma DefaultsByVersion(k: Name, version: Option<int>)
    ensures k in {SslMinProtocolVersion, WalKeepSize, MaxSlotWalKeepSize, WalKeepSegments} ==>
      (DefaultValue(k, version).Some? <==>
         version.Some? && match k
                          case SslMinProtocolVersion => version.value >= 12
                          case WalKeepSegments => version.value < 13
                          case _ => version.value >= 13)
    ensures k !in {SslMinProtocolVersion, WalKeepSize, MaxSlotWalKeepSize, WalKeepSegments} ==>
      DefaultValue(k, version) == DefaultValue(k, None)
  {
  }

  /** The number that a text of digits stands for. */
  function Number(s: string): nat
    requires forall i :: 0 <= i < |s| ==> '0' <= s[i] <= '9'
  {
    if s == "" then 0 else 10 * Number(s[..|s| - 1]) + (s[|s| - 1] - '0') as nat
  }

  /** Sizes are written as decimal numbers without leading zeros. */
  lemma {:induction false} DecimalIsRight(n: nat)
    ensures Decimal(n) != "" && forall i :: 0 <= i < |Decimal(n)| ==> '0' <= Decimal(n)[i] <= '9'
    ensures Number(Decimal(n)) == n && (n > 0 ==> Decimal(n)[0] != '0')
  {
    if n < 10 {
      assert Decimal(n)[..0] == "";
    } else {
      DecimalIsRight(n / 10);
      assert Decimal(n)[..|Decimal(n)| - 1] == Decimal(n / 10);
    }
  }

  /** Writing the user's parameters one by one in the order `order`. */
  function WriteInOrder(m: Params, order: seq<Name>, provided: Params, blocked: set<Name>): Params
    requires forall i :: 0 <= i < |order| ==> order[i] in provided
    decreases |order|
  {
    if order == [] then m
    else
      var k := order[0];
      WriteInOrder(if k in blocked then m else m[k := provided[k]], order[1..], provided, blocked)
  }

  /** Two visiting orders of the user's map end in the same map. */
  lemma OrderDoesNotMatter(m: Params, order1: seq<Name>, order2: seq<Name>, provided: Params, blocked: set<Name>)
    requires forall k :: k in order1 <==> k in provided
    requires forall k :: k in order2 <==> k in provided
    ensures WriteInOrder(m, order1, provided, blocked) == WriteInOrder(m, order2, provided, blocked)
  {
    WriteSome(m, order1, provided, blocked);
    WriteSome(m, order2, provided, blocked);
    var r1, r2 := WriteInOrder(m, order1, provided, blocked), WriteInOrder(m, order2, provided, blocked);
    assert forall k :: Lookup(r1, k) == Lookup(r2, k);
    assert forall k :: k in r1 <==> Lookup(r1, k).Some?;
    assert forall k :: k in r2 <==> Lookup(r2, k).Some?;
    assert forall k :: k in r1 ==> Lookup(r1, k) == Some(r1[k]) && Lookup(r2, k) == Some(r2[k]);
  }

  lemma {:induction false} WriteSome(m: Params, order: seq<Name>, provided: Params, blocked: set<Name>)
    requires forall i :: 0 <= i < |order| ==> order[i] in provided
    ensures forall k :: Lookup(WriteInOrder(m, order, provided, blocked), k) ==
              if k in order then Over(UserValue(k, provided, blocked), Lookup(m, k)) else Lookup(m, k)
    decreases |order|
  {
    if order != [] {
      var k := order[0];
      var m' := if k in blocked then m else m[k := provided[k]];
      WriteSome(m', order[1..], provided, blocked);
      assert order == [k] + order[1..];
    }
  }
}
