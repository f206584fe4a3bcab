/** Who asks for what: principals, actions, bound targets, risk and the
    digests that tie them together.  A digest is the constructor of its own
    payload, which is how the model says that SHA-256 over canonical JSON is
    injective. */
module Policy {
  import opened Base

  datatype Risk = Low | Medium | High
  datatype Mode = HumanInteractive | Autonomous
  datatype Source = WebSession | AdminToken | MachineToken | Mcp | Anonymous
  datatype Principal = Principal(actor: string, mode: Mode, source: Source)

  datatype Action =
    | Properties(values: map<string, Json>)
    | Service(service: string, inputs: map<string, Json>)

  /** Where an operation is bound to run. */
  datatype Target = Target(
    bindingId: string, provider: string, providerType: string, externalRef: string, revision: int)

  /** `Other` stands for any text a caller may send that is no digest of an action. */
  datatype ActionHash = ActionHash(device: string, action: Action, target: Target) | Other(text: string)

  datatype Fingerprint = Fingerprint(device: string, target: Target, action: Action, principal: Principal)

  /** The immutable part of an operation row.  Rows written by older releases
      may lack the target or the fingerprint; a row with some target column
      missing counts as having none. */
  datatype OpRequest = OpRequest(
    device: string, initiator: string, mode: Mode, action: Action,
    target: Option<Target>, key: string, fingerprint: Option<Fingerprint>)

  predicate RequiresConfirmation(p: Principal, risk: Risk) {
    p.mode == Autonomous && risk == High
  }

  function SourceName(s: Source): string {
    match s
    case WebSession => "web_session"
    case AdminToken => "admin_token"
    case MachineToken => "machine_token"
    case Mcp => "mcp"
    case Anonymous => "anonymous"
  }

  function Initiator(p: Principal): string {
    SourceName(p.source) + ":" + p.actor
  }

  /** The request `submit` proposes. */
  function Propose(device: string, action: Action, target: Target, p: Principal, key: string): OpRequest {
    OpRequest(device, Initiator(p), p.mode, action, Some(target), key,
              Some(Fingerprint(device, target, action, p)))
  }

  /** The test on digests, decisive when both rows have one and they agree. */
  predicate SameFingerprint(a: OpRequest, b: OpRequest) {
    a.fingerprint.Some? && b.fingerprint.Some? && a.fingerprint == b.fingerprint
  }

  /** The field-by-field test meant for rows without a fingerprint. */
  predicate SameIdentity(a: OpRequest, b: OpRequest) {
    && a.device == b.device && a.initiator == b.initiator && a.mode == b.mode
    && a.action == b.action && a.target == b.target
  }

  predicate Matches(existing: OpRequest, proposed: OpRequest) {
    SameFingerprint(existing, proposed) || SameIdentity(existing, proposed)
  }

  lemma PrefixBeforeColon(p: string, x: string, q: string, y: string)
    requires ':' !in p && ':' !in q && p + ":" + x == q + ":" + y
    ensures p == q && x == y
  {
    var s, t := p + ":" + x, q + ":" + y;
    assert s[|p|] == ':' && t[|q|] == ':';
    assert forall i | 0 <= i < |p| :: s[i] == p[i];
    assert forall i | 0 <= i < |q| :: t[i] == q[i];
    assert p == s[..|p|] && q == t[..|q|];
    assert x == s[|p| + 1..] && y == t[|q| + 1..];
  }

  /** `source:actor` determines both, whatever the actor contains. */
  lemma InitiatorUnambiguous(p: Principal, q: Principal)
    ensures Initiator(p) == Initiator(q) <==> p.source == q.source && p.actor == q.actor
  {
    if Initiator(p) == Initiator(q) {
      PrefixBeforeColon(SourceName(p.source), p.actor, SourceName(q.source), q.actor);
      assert SourceName(p.source)[0] == SourceName(q.source)[0];
      assert SourceName(p.source)[1] == SourceName(q.source)[1];
    }
  }

  /** Both identity tests say the same of every two operations `submit` can
      propose, namely that device, target, action and principal coincide. */
  lemma MatchersAgree(d1: string, a1: Action, t1: Target, p1: Principal, k1: string,
                      d2: string, a2: Action, t2: Target, p2: Principal, k2: string)
    ensures var x, y := Propose(d1, a1, t1, p1, k1), Propose(d2, a2, t2, p2, k2);
            && (SameFingerprint(x, y) <==> SameIdentity(x, y))
            && (Matches(x, y) <==> d1 == d2 && a1 == a2 && t1 == t2 && p1 == p2)
  {
    InitiatorUnambiguous(p1, p2);
  }

  function Rank(r: Risk): nat {
    match r case Low => 0 case Medium => 1 case High => 2
  }

  /** A feature of the device and the risk its binding declares, if any. */
  datatype Feature = Feature(identifier: string, risk: Option<Risk>)

  predicate Touches(action: Action, identifier: string) {
    match action
    case Properties(values) => identifier in values
    case Service(service, _) => identifier == service
  }

  /** The risks `_resolve_risk` collects. */
  ghost predicate Contributes(default: Risk, features: seq<Feature>, action: Action, r: Risk) {
    r == default || exists f | f in features :: Touches(action, f.identifier) && f.risk == Some(r)
  }

  /** The greatest contributing risk, which is the one the policy judges. */
  ghost predicate IsRisk(default: Risk, features: seq<Feature>, action: Action, risk: Risk) {
    && Contributes(default, features, action, risk)
    && forall r | Contributes(default, features, action, r) :: Rank(r) <= Rank(risk)
  }

  /** The action sets the feature's property or calls its service. */
  predicate Names(action: Action, f: Feature) {
    (action.Properties? && f.identifier in action.values) || (action.Service? && f.identifier == action.service)
  }

  lemma RiskIs(default: Risk, features: seq<Feature>, action: Action)
    ensures forall r :: Contributes(default, features, action, r) <==>
              r == default || exists f :: f in features && Names(action, f) && f.risk == Some(r)
  {
    forall f: Feature ensures Touches(action, f.identifier) <==> Names(action, f) {
    }
  }

  method ResolveRisk(default: Risk, features: seq<Feature>, action: Action) returns (risk: Risk)
    ensures IsRisk(default, features, action, risk)
    // high exactly when the default or a feature that the action names is, and
    // low exactly when all of them are
    ensures risk == High <==> default == High || exists f :: f in features && Names(action, f) && f.risk == Some(High)
    ensures risk == Low <==>
              default == Low && forall f | f in features && Names(action, f) :: f.risk in {None, Some(Low)}
  {
    RiskIs(default, features, action);
    risk := default;
    for i := 0 to |features|
      invariant IsRisk(default, features[..i], action, risk)
    {
      var f := features[i];
      assert features[..i + 1] == features[..i] + [f];
      if Touches(action, f.identifier) && f.risk.Some? && Rank(f.risk.value) > Rank(risk) {
        risk := f.risk.value;
      }
    }
    assert features[..|features|] == features;
    assert Contributes(default, features, action, default);
    forall f | f in features && Names(action, f) && f.risk.Some?
      ensures Contributes(default, features, action, f.risk.value)
    {
    }
    assert Rank(Low) < Rank(Medium) < Rank(High);
  }
}
