/** The code of `PreparedStatement` (prepared.rs), proved against `PreparedSpec`. */
module PreparedStatements {
  import opened Common
  import opened PreparedSpec

  class PreparedStatement {
    const explicitOids: Option<seq<Oid>>
    var cached: Option<seq<Oid>>
    var alive: bool
    var script: seq<bool>
    ghost var prepares: seq<seq<Oid>>

    ghost function State(): Statement
      reads this
    {
      Statement(explicitOids, cached, alive, script, prepares)
    }

    /** `Connection.prepare`. */
    constructor Inferred(script: seq<bool>)
      ensures State() == Prepare(script)
    {
      explicitOids, cached, alive, this.script, prepares := None, None, true, script, [];
    }

    /** `Connection.prepareTyped`. */
    constructor Typed(oids: seq<Oid>, script: seq<bool>)
      ensures State() == PrepareTyped(oids, script)
    {
      explicitOids, cached, alive, this.script, prepares := Some(oids), Some(oids), true, script, [oids];
    }

    method EnsureCached(wanted: seq<Oid>) returns (ok: bool)
      modifies this
      ensures Ensured(ok, State()) == PreparedSpec.EnsureCached(old(State()), wanted)
      ensures ok ==> cached.Some?
    {
      var needsNew := if cached.None? then true else if explicitOids.Some? then false else cached.value != wanted;
      if needsNew {
        var oids := if explicitOids.Some? then explicitOids.value else wanted;
        ok := script == [] || script[0];
        script := if script == [] then [] else script[1..];
        if !ok { return; }
        cached, prepares := Some(oids), prepares + [oids];
      }
      return true;
    }

    /**
      `query`, `execute`, `fetchOne` and `fetchOptional`, when no other call overlaps: the types
      of the statement the parameters are executed with, or nothing on an error.
     */
    method Execute(params: seq<Json>) returns (used: Option<seq<Oid>>)
      modifies this
      ensures !old(alive) ==> used.None? && State() == old(State())
      ensures old(alive) ==>
                var e := PreparedSpec.EnsureCached(old(State()), OidsFrom(params));
                State() == e.st && used == if e.ok then e.st.cached else None
    {
      if !alive { return None; }
      var ok := EnsureCached(OidsFrom(params));
      return if ok then cached else None;
    }

    method Close()
      modifies this
      ensures State() == old(State()).(alive := false, cached := None)
    {
      alive := false;
      cached := None;
    }
  }
}
