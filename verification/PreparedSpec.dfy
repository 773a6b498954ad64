/**
  Prepared statements of the Node bindings (prepared.rs) as functions: parameter types are
  inferred from the values of each call, and a cached server-side statement is reused as long as
  they stay the same. With explicit types the statement is prepared once, up front.
 */
module PreparedSpec {
  import opened Common

  type Oid = nat

  const OID_UNSPECIFIED: Oid := 0
  const OID_BOOL: Oid := 16
  const OID_BIG_INT: Oid := 20
  const OID_INT: Oid := 23
  const OID_TEXT: Oid := 25
  const OID_DOUBLE: Oid := 701

  // ---------------------------------------------------------------------------
  // Parameters
  // ---------------------------------------------------------------------------

  /** A JSON number answers `as_i64` and `as_f64`. */
  datatype Json =
    | JNull
    | JBool(b: bool)
    | JNumber(asI64: Option<int>, asF64: Option<real>)
    | JString(s: string)
    | JCompound(text: string)

  datatype ParamValue = PNull | PBool(b: bool) | PI32(i: int) | PI64(i: int) | PF64(f: real) | PString(s: string)

  predicate FitsI32(i: int) {
    -0x8000_0000 <= i <= 0x7FFF_FFFF
  }

  /** `json_value_to_param`. */
  function JsonValueToParam(v: Json): ParamValue
  {
    match v
    case JNull => PNull
    case JBool(b) => PBool(b)
    case JNumber(Some(i), _) => if FitsI32(i) then PI32(i) else PI64(i)
    case JNumber(None, Some(f)) => PF64(f)
    case JNumber(None, None) => PNull
    case JString(s) => PString(s)
    case JCompound(text) => PString(text)
  }

  function SqlOid(p: ParamValue): Oid
  {
    match p
    case PNull => OID_UNSPECIFIED
    case PBool(_) => OID_BOOL
    case PI32(_) => OID_INT
    case PI64(_) => OID_BIG_INT
    case PF64(_) => OID_DOUBLE
    case PString(_) => OID_TEXT
  }

  /** `oids_from` of the encoded parameters. */
  function OidsFrom(params: seq<Json>): seq<Oid> {
    seq(|params|, i requires 0 <= i < |params| => SqlOid(JsonValueToParam(params[i])))
  }

  // ---------------------------------------------------------------------------
  // The statement
  // ---------------------------------------------------------------------------

  /**
    `cached` holds the types the cached server-side statement was prepared with. `script` says
    which prepares to come succeed (beyond it all do); `prepares` records those that did.
   */
  datatype Statement = Statement(
    explicit: Option<seq<Oid>>,
    cached: Option<seq<Oid>>,
    alive: bool,
    script: seq<bool>,
    prepares: seq<seq<Oid>>)

  /** `Connection.prepare`. */
  function Prepare(script: seq<bool>): Statement {
    Statement(None, None, true, script, [])
  }

  /** `Connection.prepareTyped`, after its own prepare succeeded. */
  function PrepareTyped(oids: seq<Oid>, script: seq<bool>): Statement {
    Statement(Some(oids), Some(oids), true, script, [oids])
  }

  function NextPrepareSucceeds(st: Statement): bool {
    st.script == [] || st.script[0]
  }

  function NeedsNew(st: Statement, wanted: seq<Oid>): bool
  {
    match (st.cached, st.explicit)
    case (Some(c), Some(_)) => c != wanted && st.explicit.None?
    case (Some(c), None) => c != wanted
    case (None, _) => true
  }

  /** A call's success and the statement it leaves. */
  datatype Ensured = Ensured(ok: bool, st: Statement)

  /** `ensure_cached`: on a failed prepare the old cached statement stays. */
  function EnsureCached(st: Statement, wanted: seq<Oid>): Ensured
  {
    if !NeedsNew(st, wanted) then Ensured(true, st)
    else
      var oids := if st.explicit.Some? then st.explicit.value else wanted;
      var tried := st.(script := if st.script == [] then [] else st.script[1..]);
      if NextPrepareSucceeds(st) then
        Ensured(true, tried.(cached := Some(oids), prepares := st.prepares + [oids]))
      else Ensured(false, tried)
  }
}
