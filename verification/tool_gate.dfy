// token.go (VerifyAndConsume) and toolgate.go: the gate every governed tool
// call passes, and the ledger of used tokens behind it.
module ToolGate {
  import opened Wrappers
  import opened Base64Url
  import opened ApprovalTokens

  datatype RiskTier = Green | Yellow | Dynamic

  type Fields = map<string, string>
  type Resolver = Fields -> RiskTier

  datatype Tool = Tool(verb: string, tier: RiskTier, resolver: string)

  // What HashDiff computes with, beside the token primitives.
  datatype Server = Server(keys: Keys, canonical: Fields -> Bytes, sha256: Bytes -> Bytes)

  datatype Binding = Binding(workspaceId: string, tool: string, diffHash: string, targetVersion: Option<int>)

  // One call at the boundary. `fault` says whether the ledger's transaction
  // fails.
  datatype Call = Call(
    isAgent: bool, tool: Tool, workspaceId: string, fields: Fields,
    targetVersion: Option<int>, token: string, now: int, fault: bool)

  datatype Admission = Admission(call: Call, claims: Claims)

  // consumed is the ledger, jti to workspace. admitted lists the calls let
  // through on a token; history only.
  datatype State = State(
    resolvers: map<string, Resolver>, consumed: map<string, string>, admitted: seq<Admission>)

  datatype Step =
    | Register(name: string, resolver: Resolver)
    | Enforce(call: Call)

  function HashDiff(v: Server, fields: Fields): string {
    Encode(v.sha256(v.canonical(fields)))
  }

  function EffectiveTier(resolvers: map<string, Resolver>, tool: Tool, fields: Fields): RiskTier {
    if tool.tier != Dynamic then tool.tier
    else if tool.resolver in resolvers && resolvers[tool.resolver](fields) == Green then Green
    else Yellow
  }

  predicate Gated(s: State, call: Call) {
    call.isAgent && EffectiveTier(s.resolvers, call.tool, call.fields) != Green
  }

  function WantedBy(v: Server, call: Call): Binding {
    Binding(call.workspaceId, call.tool.verb, HashDiff(v, call.fields), call.targetVersion)
  }

  predicate Binds(claims: Claims, want: Binding) {
    && claims.workspaceId == want.workspaceId
    && claims.tool == want.tool
    && claims.diffHash == want.diffHash
    && (want.targetVersion.Some? ==> claims.targetVersion == want.targetVersion)
  }

  // VerifyAndConsume up to the ledger.
  function Verify(k: Keys, token: string, want: Binding, now: int): Result<Claims, TokenError> {
    match ParseToken(k, token)
    case Err(e) => Err(e)
    case Ok(claims) =>
      if !Binds(claims, want) then Err(Invalid)
      else if claims.jti == "" || now > claims.exp then Err(Invalid)
      else Ok(claims)
  }

  // The claims of the token to be used up, or why the call is refused; None
  // when no token is called for.
  function Admit(v: Server, s: State, call: Call): Result<Option<Claims>, TokenError> {
    if !Gated(s, call) then Ok(None)
    else if call.token == "" then Err(Required)
    else match Verify(v.keys, call.token, WantedBy(v, call), call.now)
      case Err(e) => Err(e)
      case Ok(claims) =>
        if call.fault then Err(Database)
        else if claims.jti in s.consumed then Err(Invalid)
        else Ok(Some(claims))
  }

  function Next(v: Server, s: State, step: Step): State {
    match step
    case Register(name, resolver) => s.(resolvers := s.resolvers[name := resolver])
    case Enforce(call) =>
      match Admit(v, s, call)
      case Ok(Some(claims)) =>
        s.(consumed := s.consumed[claims.jti := claims.workspaceId],
           admitted := s.admitted + [Admission(call, claims)])
      case _ => s
  }

  function Run(v: Server, s: State, steps: seq<Step>): State
    decreases |steps|
  {
    if steps == [] then s else Run(v, Next(v, s, steps[0]), steps[1..])
  }

  // ------------------------------------------------------------- what holds

  // The claims name the call's workspace, tool and diff, and its target version
  // where the call has one.
  predicate MadeFor(v: Server, claims: Claims, call: Call) {
    && claims.workspaceId == call.workspaceId
    && claims.tool == call.tool.verb
    && claims.diffHash == Encode(v.sha256(v.canonical(call.fields)))
    && (call.targetVersion.Some? ==> claims.targetVersion == call.targetVersion)
  }

  // The admission's token was genuine, made out for this very call, and still
  // in date.
  predicate Justified(v: Server, a: Admission) {
    && a.call.isAgent && a.call.tool.tier != Green
    && ParseToken(v.keys, a.call.token) == Ok(a.claims)
    && MadeFor(v, a.claims, a.call)
    && a.claims.jti != "" && a.call.now <= a.claims.exp
  }

  // A human's call passes. An agent's passes without a token exactly when the
  // tool is green, or dynamic with a registered resolver that answers green for
  // the call's own fields; then nothing is used up. Every other call of an
  // agent needs a token: genuine, made for it, in date and not used before.
  lemma WhoPasses(v: Server, s: State, call: Call)
    ensures !call.isAgent ==> Admit(v, s, call) == Ok(None)
    ensures var free :=
        || call.tool.tier == Green
        || (call.tool.tier == Dynamic && call.tool.resolver in s.resolvers
            && s.resolvers[call.tool.resolver](call.fields) == Green);
      call.isAgent ==>
        && (free <==> Admit(v, s, call) == Ok(None))
        && (free ==> Next(v, s, Enforce(call)) == s)
        && (call.token == "" ==> (Admit(v, s, call).Ok? <==> free))
        && (call.token == "" && !free ==> Admit(v, s, call) == Err(Required))
        && (!free ==> (Admit(v, s, call).Ok? <==>
              && call.token != "" && !call.fault && ParseToken(v.keys, call.token).Ok?
              && var claims := ParseToken(v.keys, call.token).value;
              && MadeFor(v, claims, call) && claims.jti != "" && call.now <= claims.exp && claims.jti !in s.consumed))
  {
  }

  lemma {:induction false} RunAppend(v: Server, s: State, a: seq<Step>, b: seq<Step>)
    ensures Run(v, s, a + b) == Run(v, Run(v, s, a), b)
    decreases |a|
  {
    if a == [] {
      assert a + b == b;
    } else {
      assert (a + b)[0] == a[0] && (a + b)[1..] == a[1..] + b;
      RunAppend(v, Next(v, s, a[0]), a[1..], b);
    }
  }

  // The resolver asked is the one last registered under the tool's name.
  lemma {:induction false} LastResolverStands(v: Server, s: State, name: string, resolver: Resolver, later: seq<Step>)
    requires name in s.resolvers && s.resolvers[name] == resolver
    requires forall k :: 0 <= k < |later| && later[k].Register? ==> later[k].name != name
    ensures var s' := Run(v, s, later); name in s'.resolvers && s'.resolvers[name] == resolver
    decreases |later|
  {
    if later != [] {
      LastResolverStands(v, Next(v, s, later[0]), name, resolver, later[1..]);
    }
  }

  lemma ResolverInForce(v: Server, s: State, before: seq<Step>, name: string, resolver: Resolver, later: seq<Step>)
    requires forall k :: 0 <= k < |later| && later[k].Register? ==> later[k].name != name
    ensures var s' := Run(v, s, before + ([Register(name, resolver)] + later));
      name in s'.resolvers && s'.resolvers[name] == resolver
  {
    RunAppend(v, s, before, [Register(name, resolver)] + later);
    var s1 := Run(v, s, before);
    assert ([Register(name, resolver)] + later)[1..] == later;
    LastResolverStands(v, Next(v, s1, Register(name, resolver)), name, resolver, later);
  }

  lemma {:induction false} LogGrows(v: Server, s: State, steps: seq<Step>)
    ensures s.admitted <= Run(v, s, steps).admitted
    decreases |steps|
  {
    if steps != [] {
      LogGrows(v, Next(v, s, steps[0]), steps[1..]);
    }
  }

  // Over every run: a call that got through was a human's, or free by the
  // resolvers of that moment, or stands in the log with what justified it.
  lemma EveryPassAccounted(v: Server, s: State, before: seq<Step>, call: Call, later: seq<Step>)
    requires s.admitted == [] && Admit(v, Run(v, s, before), call).Ok?
    ensures var moment := Run(v, s, before);
      var log := Run(v, s, before + ([Enforce(call)] + later)).admitted;
      || !call.isAgent
      || call.tool.tier == Green
      || (call.tool.tier == Dynamic && call.tool.resolver in moment.resolvers
          && moment.resolvers[call.tool.resolver](call.fields) == Green)
      || (|moment.admitted| < |log| && log[|moment.admitted|].call == call && Justified(v, log[|moment.admitted|]))
  {
    var moment := Run(v, s, before);
    RunKeepsInv(v, s, before);
    RunAppend(v, s, before, [Enforce(call)] + later);
    assert ([Enforce(call)] + later)[1..] == later;
    var after := Next(v, moment, Enforce(call));
    StepKeepsInv(v, moment, Enforce(call));
    LogGrows(v, after, later);
  }

  ghost predicate Inv(v: Server, s: State) {
    && (forall i :: 0 <= i < |s.admitted| ==> Justified(v, s.admitted[i]) && s.admitted[i].claims.jti in s.consumed)
    && (forall i, j :: 0 <= i < j < |s.admitted| ==> s.admitted[i].claims.jti != s.admitted[j].claims.jti)
  }

  lemma StepKeepsInv(v: Server, s: State, step: Step)
    requires Inv(v, s)
    ensures Inv(v, Next(v, s, step))
    ensures forall jti :: jti in s.consumed ==> jti in Next(v, s, step).consumed
  {
    var s' := Next(v, s, step);
    if step.Enforce? && Admit(v, s, step.call).Ok? && Admit(v, s, step.call).value.Some? {
      var a := s'.admitted[|s.admitted|];
      assert Justified(v, a) && a.claims.jti !in s.consumed;
      assert forall i :: 0 <= i < |s.admitted| ==> s'.admitted[i] == s.admitted[i];
    }
  }

  lemma {:induction false} RunKeepsInv(v: Server, s: State, steps: seq<Step>)
    requires Inv(v, s)
    ensures Inv(v, Run(v, s, steps))
    ensures forall jti :: jti in s.consumed ==> jti in Run(v, s, steps).consumed
    decreases |steps|
  {
    if steps != [] {
      StepKeepsInv(v, s, steps[0]);
      RunKeepsInv(v, Next(v, s, steps[0]), steps[1..]);
    }
  }

  // Over every run, whatever resolvers come and go and whatever faults occur:
  // no jti and no token admits two calls, and each admitted call had a genuine
  // token made out for its workspace, tool, diff and version, still in date.
  lemma EachTokenAdmitsOnce(v: Server, s: State, steps: seq<Step>, i: nat)
    requires s.admitted == [] && i < |Run(v, s, steps).admitted|
    ensures var log := Run(v, s, steps).admitted;
      && Justified(v, log[i])
      && forall j :: 0 <= j < i ==> log[j].claims.jti != log[i].claims.jti && log[j].call.token != log[i].call.token
  {
    RunKeepsInv(v, s, steps);
  }

  // A gated call gets through only by using up a token: the ledger gains its
  // jti and the call joins the log. Anything else leaves the ledger alone.
  lemma AdmissionUsesToken(v: Server, s: State, call: Call)
    ensures var s' := Next(v, s, Enforce(call));
      if Admit(v, s, call).Ok? && Gated(s, call)
      then
        && ParseToken(v.keys, call.token).Ok?
        && ParseToken(v.keys, call.token).value.jti !in s.consumed
        && s'.consumed.Keys == s.consumed.Keys + {ParseToken(v.keys, call.token).value.jti}
        && s'.admitted == s.admitted + [Admission(call, ParseToken(v.keys, call.token).value)]
      else s' == s
  {
  }

  // Once a jti is in the ledger, no later gated call gets through on it.
  lemma ReplayRefused(v: Server, s: State, steps: seq<Step>, call: Call)
    requires Inv(v, s) && ParseToken(v.keys, call.token).Ok?
    requires ParseToken(v.keys, call.token).value.jti in s.consumed
    requires Gated(Run(v, s, steps), call)
    ensures Admit(v, Run(v, s, steps), call).Err?
  {
    RunKeepsInv(v, s, steps);
  }

  // The gate opens for what it is meant to: a token minted for this call, in
  // date and unused, is admitted.
  lemma MintedTokenAdmitted(v: Server, s: State, call: Call, claims: Claims)
    requires v.keys.root != [] && v.keys.unmarshal(v.keys.marshal(claims)) == Some(claims)
    requires Gated(s, call) && !call.fault
    requires SignToken(v.keys, claims) == Ok(call.token)
    ensures Admit(v, s, call) == Ok(Some(claims))
      <==> MadeFor(v, claims, call) && claims.jti != "" && call.now <= claims.exp && claims.jti !in s.consumed
  {
    ParseSigned(v.keys, claims);
  }

  // A token minted for one diff binds another only if their digests agree.
  lemma BoundToDiff(v: Server, minted: Fields, call: Call, claims: Claims)
    requires claims.diffHash == HashDiff(v, minted) && MadeFor(v, claims, call)
    ensures v.sha256(v.canonical(minted)) == v.sha256(v.canonical(call.fields))
  {
    EncodeIsInjective(v.sha256(v.canonical(minted)), v.sha256(v.canonical(call.fields)));
  }

  // -------------------------------------------------------------- the gate

  class Gate {
    const server: Server
    var resolvers: map<string, Resolver>
    var consumed: map<string, string>
    ghost var admitted: seq<Admission>

    constructor (server: Server)
      ensures this.server == server && Now() == State(map[], map[], [])
    {
      this.server := server;
      resolvers, consumed, admitted := map[], map[], [];
    }

    ghost function Now(): State
      reads this
    {
      State(resolvers, consumed, admitted)
    }

    method RegisterResolver(name: string, resolver: Resolver)
      modifies this
      ensures Now() == Next(server, old(Now()), Register(name, resolver))
    {
      resolvers := resolvers[name := resolver];
    }

    // The insert that does nothing on a conflict; false when nothing was
    // inserted.
    method ConsumeJti(workspaceId: string, jti: string, fault: bool) returns (r: Result<bool, TokenError>)
      modifies this`consumed
      ensures fault ==> r == Err(Database)
      ensures !fault ==> r == Ok(jti !in old(consumed))
      ensures consumed == if fault || jti in old(consumed) then old(consumed) else old(consumed)[jti := workspaceId]
    {
      if fault {
        return Err(Database);
      }
      if jti in consumed {
        return Ok(false);
      }
      consumed := consumed[jti := workspaceId];
      return Ok(true);
    }

    method VerifyAndConsume(token: string, want: Binding, now: int, fault: bool)
      returns (r: Option<TokenError>, ghost used: Option<Claims>)
      modifies this`consumed
      ensures match Verify(server.keys, token, want, now)
        case Err(e) => r == Some(e) && consumed == old(consumed)
        case Ok(claims) =>
          if fault then r == Some(Database) && consumed == old(consumed)
          else if claims.jti in old(consumed) then r == Some(Invalid) && consumed == old(consumed)
          else r == None && consumed == old(consumed)[claims.jti := claims.workspaceId] && used == Some(claims)
    {
      used := None;
      var parsed := ParseToken(server.keys, token);
      if parsed.Err? {
        return Some(parsed.error), None;
      }
      var claims := parsed.value;
      if claims.workspaceId != want.workspaceId || claims.tool != want.tool || claims.diffHash != want.diffHash {
        return Some(Invalid), None;
      }
      if want.targetVersion.Some?
        && (claims.targetVersion.None? || claims.targetVersion.value != want.targetVersion.value) {
        return Some(Invalid), None;
      }
      if claims.jti == "" || now > claims.exp {
        return Some(Invalid), None;
      }
      var consumption := ConsumeJti(claims.workspaceId, claims.jti, fault);
      if consumption.Err? {
        return Some(consumption.error), None;
      }
      if !consumption.value {
        return Some(Invalid), None;
      }
      return None, Some(claims);
    }

    // nil when the call may proceed.
    method EnforceCall(call: Call) returns (r: Option<TokenError>)
      modifies this
      ensures Now() == Next(server, old(Now()), Enforce(call))
      ensures r == match Admit(server, old(Now()), call) case Ok(_) => None case Err(e) => Some(e)
    {
      var tier := EffectiveTier(resolvers, call.tool, call.fields);
      if !call.isAgent || tier == Green {
        return None;
      }
      if call.token == "" {
        return Some(Required);
      }
      var diffHash := HashDiff(server, call.fields);
      ghost var used;
      r, used := VerifyAndConsume(call.token,
        Binding(call.workspaceId, call.tool.verb, diffHash, call.targetVersion), call.now, call.fault);
      if r.None? {
        admitted := admitted + [Admission(call, used.value)];
      }
    }
  }
}
