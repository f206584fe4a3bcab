/** Executing a verified target, one entity at a time, up to the first failure. */
module Executor {
  import opened Base
  import opened Order
  import opened Catalog
  import opened Verifier
  import E = Effects

  type Arguments = map<string, Json>

  /** A plan names a tool, possibly behind a server prefix, and its arguments. */
  datatype Plan = Plan(tool: string, arguments: Arguments)

  /** A recorded call: the tool the server says it ran, what it was sent and
      what it answered. */
  datatype Call = Call(tool: string, arguments: Arguments, result: string)

  datatype Reply = Reply(tool: string, content: string)

  /** Case folding, and what the server does with the i-th call, schema check
      included. */
  datatype World = World(fold: string -> string, server: (nat, string, Arguments) -> Result<Reply, string>)

  datatype Failure = Failure(entity: string, code: string)

  datatype Batch = Batch(completed: seq<string>, failed: seq<Failure>, skipped: seq<string>, calls: seq<Call>)

  datatype Refusal = ActionMismatch | PlanMismatch | ToolsUnavailable

  // -------------------------------------------------- the target fields

  predicate Forbidden(fold: string -> string, key: string) {
    fold(key) in {"area", "domain", "entity_id", "floor", "name", "target", "target_expression"}
  }

  /** `clean`: drops target fields at every depth. */
  function Clean(fold: string -> string, v: Json): Json {
    match v
    case JObject(f) => JObject(map k | k in f && !Forbidden(fold, k) :: Clean(fold, f[k]))
    case JList(s) => JList(seq(|s|, i requires 0 <= i < |s| => Clean(fold, s[i])))
    case _ => v
  }

  predicate NoTargetFields(fold: string -> string, v: Json) {
    match v
    case JObject(f) => forall k | k in f :: !Forbidden(fold, k) && NoTargetFields(fold, f[k])
    case JList(s) => forall i | 0 <= i < |s| :: NoTargetFields(fold, s[i])
    case _ => true
  }

  /** Cleaning leaves no target field at any depth. */
  lemma {:induction false} CleanRemovesAll(fold: string -> string, v: Json)
    ensures NoTargetFields(fold, Clean(fold, v))
  {
    match v
    case JObject(f) =>
      forall k | k in f && !Forbidden(fold, k) ensures NoTargetFields(fold, Clean(fold, f[k])) {
        CleanRemovesAll(fold, f[k]);
      }
    case JList(s) =>
      forall i | 0 <= i < |s| ensures NoTargetFields(fold, Clean(fold, s[i])) {
        CleanRemovesAll(fold, s[i]);
      }
    case _ =>
  }

  /** It changes nothing exactly when there is nothing to remove. */
  lemma {:induction false} CleanKeeps(fold: string -> string, v: Json)
    ensures Clean(fold, v) == v <==> NoTargetFields(fold, v)
  {
    match v
    case JObject(f) =>
      forall k | k in f ensures Clean(fold, f[k]) == f[k] <==> NoTargetFields(fold, f[k]) {
        CleanKeeps(fold, f[k]);
      }
      var g := Clean(fold, v).fields;
      if g == f {
        forall k | k in f ensures !Forbidden(fold, k) && Clean(fold, f[k]) == f[k] {
          assert k in g;
        }
      }
    case JList(s) =>
      forall i | 0 <= i < |s| ensures Clean(fold, s[i]) == s[i] <==> NoTargetFields(fold, s[i]) {
        CleanKeeps(fold, s[i]);
      }
      var t := Clean(fold, v).items;
      if t == s {
        forall i | 0 <= i < |s| ensures Clean(fold, s[i]) == s[i] {
          assert t[i] == s[i];
        }
      }
    case _ =>
  }

  /** Key by key: at the top, cleaning drops exactly the seven names of a target,
      in any spelling that folds to one of them. */
  lemma CleanKeys(fold: string -> string, f: Arguments, k: string)
    ensures var cleaned := Clean(fold, JObject(f));
            && cleaned.JObject?
            && (k in cleaned.fields <==>
                  && k in f && fold(k) != "area" && fold(k) != "domain" && fold(k) != "entity_id"
                  && fold(k) != "floor" && fold(k) != "name" && fold(k) != "target"
                  && fold(k) != "target_expression")
            && (k in cleaned.fields && (f[k].JString? || f[k].JInt? || f[k].JReal? || f[k].JBool? || f[k].JNull?) ==>
                  cleaned.fields[k] == f[k])
  {
  }

  // ----------------------------------------------------------- execution

  function ToolFor(action: Action): string {
    match action
    case TurnOn => "HassTurnOn"
    case TurnOff => "HassTurnOff"
    case SetBrightness => "HassLightSet"
  }

  /** What follows the last dot. */
  function Suffix(tool: string): string {
    if tool == [] then []
    else if tool[|tool| - 1] == '.' then []
    else Suffix(tool[..|tool| - 1]) + [tool[|tool| - 1]]
  }

  /** The arguments every call shares. */
  function BaseArguments(fold: string -> string, parameters: Arguments, plan: Option<Plan>): Arguments {
    match plan
    case None => parameters
    case Some(p) => parameters + Clean(fold, JObject(p.arguments)).fields
  }

  // ------------------------------------------------- which tool is called

  const ALLOWED := {"HassTurnOn", "HassTurnOff", "HassLightSet", "GetLiveContext"}

  const UNSAFE := {
    "lock", "door", "garage", "gas", "water", "camera",
    "门锁", "门禁", "车库", "燃气", "水阀", "摄像头"}

  /** Some string in the value, at any depth, speaks of what must not be touched. */
  predicate Unsafe(fold: string -> string, v: Json) {
    match v
    case JString(s) => exists token | token in UNSAFE :: Contains(fold(s), token)
    case JObject(f) => exists k | k in f :: Unsafe(fold, f[k])
    case JList(s) => exists i | 0 <= i < |s| :: Unsafe(fold, s[i])
    case _ => false
  }

  /** The safe ones of the listed tools. */
  function SafeTools(listed: seq<string>): seq<string> {
    if listed == [] then []
    else (if Suffix(listed[0]) in ALLOWED then [listed[0]] else []) + SafeTools(listed[1..])
  }

  function FirstWithSuffix(available: seq<string>, suffix: string): Option<string> {
    if available == [] then None
    else if Suffix(available[0]) == suffix then Some(available[0])
    else FirstWithSuffix(available[1..], suffix)
  }

  function ResolveTool(fold: string -> string, requested: string, arguments: Arguments, available: seq<string>)
    : Result<string, string>
  {
    if Suffix(requested) !in ALLOWED then Err("tool_not_allowed")
    else if Unsafe(fold, JObject(arguments)) then Err("unsafe_target")
    else if requested in available then Ok(requested)
    else match FirstWithSuffix(available, Suffix(requested))
      case Some(tool) => Ok(tool)
      case None => Err("tool_unavailable")
  }

  /** What a batch asks for, entity by entity. */
  datatype Job = Job(tool: string, base: Arguments, available: seq<string>)

  function ArgumentsFor(job: Job, id: string): Arguments {
    job.base["name" := JString(id)]
  }

  function Outcome(w: World, job: Job, i: nat, id: string): Result<Reply, string> {
    match ResolveTool(w.fold, job.tool, ArgumentsFor(job, id), job.available)
    case Err(e) => Err(e)
    case Ok(tool) => w.server(i, tool, ArgumentsFor(job, id))
  }

  /** How many of the calls succeed before one fails. */
  function Reached(w: World, job: Job, ids: seq<string>, from: nat): nat
    requires from <= |ids|
    decreases |ids| - from
  {
    if from == |ids| || Outcome(w, job, from, ids[from]).Err? then from else Reached(w, job, ids, from + 1)
  }

  function Recorded(job: Job, id: string, reply: Reply): Call {
    Call(reply.tool, ArgumentsFor(job, id), reply.content)
  }

  /** The records of the first calls. */
  function CallsOf(w: World, job: Job, ids: seq<string>, n: nat): (calls: seq<Call>)
    requires n <= |ids| && forall i | 0 <= i < n :: Outcome(w, job, i, ids[i]).Ok?
    ensures |calls| == n
    ensures forall i | 0 <= i < n :: calls[i] == Recorded(job, ids[i], Outcome(w, job, i, ids[i]).value)
  {
    if n == 0 then []
    else CallsOf(w, job, ids, n - 1) + [Recorded(job, ids[n - 1], Outcome(w, job, n - 1, ids[n - 1]).value)]
  }

  /** The batch: the calls up to the first failure, and nothing after it. */
  function BatchOf(w: World, job: Job, ids: seq<string>): Batch {
    var n := Reached(w, job, ids, 0);
    ReachedBounds(w, job, ids, 0);
    Batch(
      ids[..n],
      if n < |ids| then [Failure(ids[n], Outcome(w, job, n, ids[n]).error)] else [],
      if n < |ids| then ids[n + 1..] else [],
      CallsOf(w, job, ids, n))
  }

  lemma {:induction false} ReachedBounds(w: World, job: Job, ids: seq<string>, from: nat)
    requires from <= |ids|
    ensures from <= Reached(w, job, ids, from) <= |ids|
    ensures forall i | from <= i < Reached(w, job, ids, from) :: Outcome(w, job, i, ids[i]).Ok?
    ensures var n := Reached(w, job, ids, from); n < |ids| ==> Outcome(w, job, n, ids[n]).Err?
    decreases |ids| - from
  {
    if from == |ids| || Outcome(w, job, from, ids[from]).Err? {
    } else {
      ReachedBounds(w, job, ids, from + 1);
    }
  }

  method RunCalls(w: World, job: Job, ids: seq<string>) returns (b: Batch)
    ensures b == BatchOf(w, job, ids)
  {
    var completed: seq<string> := [];
    var calls: seq<Call> := [];
    for i := 0 to |ids|
      invariant completed == ids[..i]
      invariant Reached(w, job, ids, 0) == Reached(w, job, ids, i)
      invariant forall j | 0 <= j < i :: Outcome(w, job, j, ids[j]).Ok?
      invariant calls == CallsOf(w, job, ids, i)
    {
      var outcome := Outcome(w, job, i, ids[i]);
      if outcome.Err? {
        return Batch(completed, [Failure(ids[i], outcome.error)], ids[i + 1..], calls);
      }
      completed := completed + [ids[i]];
      calls := calls + [Recorded(job, ids[i], outcome.value)];
    }
    return Batch(completed, [], [], calls);
  }

  // ------------------------------------------------------- conservation

  function FailedIds(b: Batch): seq<string> {
    seq(|b.failed|, i requires 0 <= i < |b.failed| => b.failed[i].entity)
  }

  /** The call went out for the entity, with the shared arguments otherwise. */
  ghost predicate SentFor(job: Job, call: Call, id: string) {
    && "name" in call.arguments && call.arguments["name"] == JString(id)
    && forall k | k != "name" ::
         (k in call.arguments <==> k in job.base) && (k in job.base ==> call.arguments[k] == job.base[k])
  }

  lemma CallsAreSentFor(w: World, job: Job, ids: seq<string>, n: nat)
    requires n <= |ids| && forall i | 0 <= i < n :: Outcome(w, job, i, ids[i]).Ok?
    ensures forall i | 0 <= i < n :: SentFor(job, CallsOf(w, job, ids, n)[i], ids[i])
  {
  }

  lemma Parts(ids: seq<string>, n: nat, f: Failure)
    requires n < |ids| && f.entity == ids[n]
    ensures ids[..n] + [f.entity] + ids[n + 1..] == ids
  {
  }

  lemma BatchParts(w: World, job: Job, ids: seq<string>)
    ensures var b := BatchOf(w, job, ids);
      && b.completed + FailedIds(b) + b.skipped == ids
      && |b.failed| <= 1 && (b.failed == [] ==> b.skipped == [])
  {
    var n := Reached(w, job, ids, 0);
    ReachedBounds(w, job, ids, 0);
    var b := BatchOf(w, job, ids);
    if n < |ids| {
      Parts(ids, n, b.failed[0]);
      assert FailedIds(b) == [b.failed[0].entity];
    } else {
      assert FailedIds(b) == [];
    }
  }

  lemma BatchCalls(w: World, job: Job, ids: seq<string>)
    ensures var b := BatchOf(w, job, ids);
      |b.calls| == |b.completed| && forall i | 0 <= i < |b.calls| :: SentFor(job, b.calls[i], b.completed[i])
  {
    ReachedBounds(w, job, ids, 0);
    CallsAreSentFor(w, job, ids, Reached(w, job, ids, 0));
  }

  /** Nothing is lost or invented: completed, then the at most one that failed,
      then skipped, is the target in order; calls match completed one for one,
      and what they were sent differs in the entity's name only. */
  lemma TargetIsConserved(w: World, job: Job, ids: seq<string>)
    ensures var b := BatchOf(w, job, ids);
      && b.completed + FailedIds(b) + b.skipped == ids
      && |b.failed| <= 1 && (b.failed == [] ==> b.skipped == [])
      && |b.calls| == |b.completed|
      && forall i | 0 <= i < |b.calls| :: SentFor(job, b.calls[i], b.completed[i])
  {
    BatchParts(w, job, ids);
    BatchCalls(w, job, ids);
  }

  lemma {:induction false} FirstHasSuffix(available: seq<string>, suffix: string)
    ensures var first := FirstWithSuffix(available, suffix);
      && (first.Some? ==> first.value in available && Suffix(first.value) == suffix)
      && (first.None? ==> forall tool | tool in available :: Suffix(tool) != suffix)
  {
    if available == [] {
    } else {
      FirstHasSuffix(available[1..], suffix);
    }
  }

  lemma {:induction false} SafeToolsAre(listed: seq<string>)
    ensures forall tool :: tool in SafeTools(listed) <==> tool in listed && Suffix(tool) in ALLOWED
  {
    if listed == [] {
    } else {
      SafeToolsAre(listed[1..]);
      assert listed == [listed[0]] + listed[1..];
    }
  }

  lemma {:induction false} SuffixParts(tool: string)
    ensures '.' !in Suffix(tool) && E.Named(tool, Suffix(tool))
  {
    if tool == [] {
    } else {
      var n := |tool| - 1;
      var init, rest := tool[..n], Suffix(tool[..n]);
      SuffixParts(init);
      assert tool == init + [tool[n]];
      if tool[n] == '.' {
        assert tool == init + "." + [];
      } else if init != rest {
        var p :| init == p + "." + rest;
        assert tool == p + "." + (rest + [tool[n]]);
      }
    }
  }

  /** What follows the last dot is the name exactly when the tool has that name. */
  lemma SuffixIsName(tool: string, name: string)
    requires '.' !in name
    ensures Suffix(tool) == name <==> E.Named(tool, name)
  {
    SuffixParts(tool);
    if E.Named(tool, name) {
      E.NamesDiffer(tool, name, Suffix(tool));
    }
  }

  /** The suffix is the requested one exactly for the tools that do what the action asks. */
  lemma SuffixFits(action: Action, tool: string)
    ensures Suffix(tool) == ToolFor(action) <==> E.Fits(action, tool)
  {
    SuffixIsName(tool, ToolFor(action));
  }

  lemma {:induction false} SuffixOfPlain(tool: string)
    requires '.' !in tool
    ensures Suffix(tool) == tool
  {
    if tool == [] {
    } else {
      SuffixOfPlain(tool[..|tool| - 1]);
    }
  }

  /** The tool lookup succeeds exactly when nothing in the call is unsafe and the
      server lists a tool that does what the action asks, and then with such a
      tool; otherwise it tells which of the two it was. */
  lemma OnlyTheActionsToolIsCalled(fold: string -> string, action: Action, arguments: Arguments, listed: seq<string>)
    ensures var r := ResolveTool(fold, ToolFor(action), arguments, SafeTools(listed));
      && (r.Ok? <==> !Unsafe(fold, JObject(arguments)) && exists tool :: tool in listed && E.Fits(action, tool))
      && (r.Ok? ==> r.value in listed && E.Fits(action, r.value))
      && (r.Err? ==> r.error == if Unsafe(fold, JObject(arguments)) then "unsafe_target" else "tool_unavailable")
  {
    SuffixOfPlain(ToolFor(action));
    SafeToolsAre(listed);
    FirstHasSuffix(SafeTools(listed), ToolFor(action));
    forall tool ensures Suffix(tool) == ToolFor(action) <==> E.Fits(action, tool) {
      SuffixFits(action, tool);
    }
  }

  // ------------------------------------------------------------ the effect

  /** The arguments of a call, one by one: the entity's name, what the cleaned
      plan says, and the parameters otherwise. */
  ghost predicate ArgumentsAre(fold: string -> string, parameters: Arguments, plan: Option<Plan>, id: string,
      arguments: Arguments)
  {
    && "name" in arguments && arguments["name"] == JString(id)
    && forall k | k != "name" ::
         var planned := plan.Some? && k in plan.value.arguments && !Forbidden(fold, k);
         && (k in arguments <==> planned || k in parameters)
         && (k in arguments ==> arguments[k] == if planned then Clean(fold, plan.value.arguments[k]) else parameters[k])
  }

  lemma ArgumentsForAre(fold: string -> string, parameters: Arguments, plan: Option<Plan>, job: Job, id: string)
    requires job.base == BaseArguments(fold, parameters, plan)
    ensures ArgumentsAre(fold, parameters, plan, id, ArgumentsFor(job, id))
  {
  }

  /** A call that went through: to a listed tool that does what the action asks,
      with these arguments; the record is the server's reply. */
  ghost predicate WentThrough(w: World, action: Action, parameters: Arguments, plan: Option<Plan>, listed: seq<string>,
      i: nat, id: string, sent: E.Request, call: Call)
  {
    && sent.tool in listed && E.Fits(action, sent.tool) && ArgumentsAre(w.fold, parameters, plan, id, sent.arguments)
    && w.server(i, sent.tool, sent.arguments) == Ok(Reply(call.tool, call.result)) && call.arguments == sent.arguments
  }

  /** Why a call did not: it is unsafe, there is no tool for it, or the server
      refused it. */
  ghost predicate FellThrough(w: World, action: Action, parameters: Arguments, plan: Option<Plan>, listed: seq<string>,
      i: nat, f: Failure)
  {
    exists arguments :: ArgumentsAre(w.fold, parameters, plan, f.entity, arguments) &&
      if Unsafe(w.fold, JObject(arguments)) then f.code == "unsafe_target"
      else if forall tool | tool in listed :: !E.Fits(action, tool) then f.code == "tool_unavailable"
      else exists tool :: tool in listed && E.Fits(action, tool) && w.server(i, tool, arguments) == Err(f.code)
  }

  function Asked(w: World, job: Job, id: string): E.Request
    requires ResolveTool(w.fold, job.tool, ArgumentsFor(job, id), job.available).Ok?
  {
    E.Request(ResolveTool(w.fold, job.tool, ArgumentsFor(job, id), job.available).value, ArgumentsFor(job, id))
  }

  function JobFor(fold: string -> string, action: Action, parameters: Arguments, plan: Option<Plan>,
      listed: seq<string>): Job
  {
    Job(ToolFor(action), BaseArguments(fold, parameters, plan), SafeTools(listed))
  }

  lemma CallWentThrough(w: World, action: Action, parameters: Arguments, plan: Option<Plan>, listed: seq<string>,
      i: nat, id: string)
    requires Outcome(w, JobFor(w.fold, action, parameters, plan, listed), i, id).Ok?
    ensures var job := JobFor(w.fold, action, parameters, plan, listed);
            && ResolveTool(w.fold, job.tool, ArgumentsFor(job, id), job.available).Ok?
            && WentThrough(w, action, parameters, plan, listed, i, id, Asked(w, job, id),
                           Recorded(job, id, Outcome(w, job, i, id).value))
  {
    var job := JobFor(w.fold, action, parameters, plan, listed);
    OnlyTheActionsToolIsCalled(w.fold, action, ArgumentsFor(job, id), listed);
    ArgumentsForAre(w.fold, parameters, plan, job, id);
  }

  lemma CallFellThrough(w: World, action: Action, parameters: Arguments, plan: Option<Plan>, listed: seq<string>,
      i: nat, id: string)
    requires Outcome(w, JobFor(w.fold, action, parameters, plan, listed), i, id).Err?
    ensures FellThrough(w, action, parameters, plan, listed, i,
                        Failure(id, Outcome(w, JobFor(w.fold, action, parameters, plan, listed), i, id).error))
  {
    var job := JobFor(w.fold, action, parameters, plan, listed);
    OnlyTheActionsToolIsCalled(w.fold, action, ArgumentsFor(job, id), listed);
    ArgumentsForAre(w.fold, parameters, plan, job, id);
  }

  /** What a batch comes to, in terms of what the server was sent for each
      completed entity.  They are the target up to the first failure, and the
      house is, there and nowhere else, as the action wants it. */
  ghost predicate CarriedOut(w: World, action: Action, parameters: Arguments, plan: Option<Plan>, listed: seq<string>,
      ids: seq<string>, b: Batch, sent: seq<E.Request>)
  {
    var n := |b.completed|;
    && n <= |ids| && b.completed == ids[..n]
    && AllWentThrough(w, action, parameters, plan, listed, b.completed, sent, b.calls)
    && (if n == |ids| then b.failed == [] && b.skipped == []
        else |b.failed| == 1 && b.failed[0].entity == ids[n] && b.skipped == ids[n + 1..]
             && FellThrough(w, action, parameters, plan, listed, n, b.failed[0]))
    && E.AchievedAnywhere(action, sent, b.completed)
  }

  ghost predicate AllWentThrough(w: World, action: Action, parameters: Arguments, plan: Option<Plan>,
      listed: seq<string>, ids: seq<string>, sent: seq<E.Request>, calls: seq<Call>)
  {
    && |sent| == |calls| == |ids|
    && forall i | 0 <= i < |ids| :: WentThrough(w, action, parameters, plan, listed, i, ids[i], sent[i], calls[i])
  }

  function AllAsked(w: World, job: Job, ids: seq<string>, n: nat): (sent: seq<E.Request>)
    requires n <= |ids|
    requires forall i | 0 <= i < n :: ResolveTool(w.fold, job.tool, ArgumentsFor(job, ids[i]), job.available).Ok?
    ensures |sent| == n && forall i | 0 <= i < n :: sent[i] == Asked(w, job, ids[i])
  {
    if n == 0 then [] else AllAsked(w, job, ids, n - 1) + [Asked(w, job, ids[n - 1])]
  }

  lemma CallsWentThrough(w: World, action: Action, parameters: Arguments, plan: Option<Plan>, listed: seq<string>,
      ids: seq<string>, n: nat) returns (sent: seq<E.Request>)
    requires n <= |ids|
    requires forall i | 0 <= i < n :: Outcome(w, JobFor(w.fold, action, parameters, plan, listed), i, ids[i]).Ok?
    ensures AllWentThrough(w, action, parameters, plan, listed, ids[..n], sent,
                           CallsOf(w, JobFor(w.fold, action, parameters, plan, listed), ids, n))
  {
    var job := JobFor(w.fold, action, parameters, plan, listed);
    forall i | 0 <= i < n
      ensures ResolveTool(w.fold, job.tool, ArgumentsFor(job, ids[i]), job.available).Ok?
      ensures WentThrough(w, action, parameters, plan, listed, i, ids[i], Asked(w, job, ids[i]),
                          Recorded(job, ids[i], Outcome(w, job, i, ids[i]).value))
    {
      CallWentThrough(w, action, parameters, plan, listed, i, ids[i]);
    }
    sent := AllAsked(w, job, ids, n);
  }

  lemma WentIsSent(w: World, action: Action, parameters: Arguments, plan: Option<Plan>, listed: seq<string>,
      ids: seq<string>, sent: seq<E.Request>, calls: seq<Call>)
    requires Distinct(ids) && AllWentThrough(w, action, parameters, plan, listed, ids, sent, calls)
    ensures E.AchievedAnywhere(action, sent, ids)
  {
    assert E.SentTo(action, sent, ids);
    E.CallsAchieveAnywhere(action, sent, ids);
  }

  lemma BatchIsCarriedOut(w: World, action: Action, parameters: Arguments, plan: Option<Plan>, listed: seq<string>,
      ids: seq<string>) returns (sent: seq<E.Request>)
    requires Distinct(ids)
    ensures CarriedOut(w, action, parameters, plan, listed, ids,
                       BatchOf(w, JobFor(w.fold, action, parameters, plan, listed), ids), sent)
  {
    var job := JobFor(w.fold, action, parameters, plan, listed);
    var b := BatchOf(w, job, ids);
    ReachedBounds(w, job, ids, 0);
    var n := |b.completed|;
    assert n == Reached(w, job, ids, 0) && b.completed == ids[..n] && b.calls == CallsOf(w, job, ids, n);
    sent := CallsWentThrough(w, action, parameters, plan, listed, ids, n);
    WentIsSent(w, action, parameters, plan, listed, b.completed, sent, b.calls);
    if n < |ids| {
      CallFellThrough(w, action, parameters, plan, listed, n, ids[n]);
    }
  }

  lemma SortedIsDistinct(ids: seq<string>)
    requires StrictlySorted(ids, StringLt)
    ensures Distinct(ids)
  {
    StringOrder();
  }

  /** `listed` are the names of the server's tools, none when they cannot be
      read; `sent` is what the server was asked for the completed entities. */
  method ExecuteVerified(w: World, action: Action, parameters: Arguments, target: Verified, plan: Option<Plan>,
      listed: Option<seq<string>>) returns (r: Result<Batch, Refusal>, ghost sent: seq<E.Request>)
    requires StrictlySorted(target.targets, StringLt)
    ensures r == if action != target.action then Err(ActionMismatch)
                 else if plan.Some? && !E.Fits(action, plan.value.tool) then Err(PlanMismatch)
                 else if listed.None? then Err(ToolsUnavailable)
                 else Ok(BatchOf(w, JobFor(w.fold, action, parameters, plan, listed.value), target.targets))
    ensures r.Ok? ==> listed.Some?
                      && CarriedOut(w, action, parameters, plan, listed.value, target.targets, r.value, sent)
  {
    sent := [];
    if action != target.action {
      return Err(ActionMismatch), [];
    }
    var tool := ToolFor(action);
    if plan.Some? {
      SuffixFits(action, plan.value.tool);
      if Suffix(plan.value.tool) != tool {
        return Err(PlanMismatch), [];
      }
    }
    var base := BaseArguments(w.fold, parameters, plan);
    if listed.None? {
      return Err(ToolsUnavailable), [];
    }
    SortedIdsSorts(target.targets);
    var b := RunCalls(w, Job(tool, base, SafeTools(listed.value)), SortedIds(target.targets));
    SortedIsDistinct(target.targets);
    sent := BatchIsCarriedOut(w, action, parameters, plan, listed.value, target.targets);
    return Ok(b), sent;
  }

  /** In particular: a batch to turn on that fully succeeds leaves every target
      on, one to turn off leaves every target off, one to set the brightness
      leaves every target at the brightness given, and nothing outside the
      target is touched, whatever the house was like before. */
  lemma SuccessShows(w: World, action: Action, parameters: Arguments, plan: Option<Plan>, listed: seq<string>,
      ids: seq<string>, b: Batch, sent: seq<E.Request>, house: E.House)
    requires CarriedOut(w, action, parameters, plan, listed, ids, b, sent)
    requires b.failed == [] && b.skipped == []
    ensures E.Shows(action, house, E.After(house, sent), ids)
    ensures action == SetBrightness && plan.None? && "brightness" in parameters ==>
              E.ShowsBrightness(house, E.After(house, sent), ids, parameters["brightness"])
  {
    assert b.completed == ids;
    E.AchievedShows(action, house, sent, ids);
    if action == SetBrightness && plan.None? && "brightness" in parameters {
      forall i | 0 <= i < |ids|
        ensures "brightness" in sent[i].arguments && sent[i].arguments["brightness"] == parameters["brightness"]
      {
        assert WentThrough(w, action, parameters, plan, listed, i, ids[i], sent[i], b.calls[i]);
      }
      E.AchievedShowsBrightness(house, sent, ids, parameters["brightness"]);
    }
  }

  // ------------------------------------------------------------ learning

  predicate FullySucceeded(b: Batch) {
    b.completed != [] && b.failed == [] && b.skipped == []
  }

  /** When `record_success` goes on to create a term; `expression` is stripped. */
  predicate Learns(expression: string, b: Batch, target: Verified) {
    expression != "" && FullySucceeded(b) && b.completed == target.targets
  }

  /** A term is learned for an execution exactly when every call succeeded,
      which is when all of the verified target was completed. */
  lemma LearnsExactlyWhen(expression: string, target: Verified, w: World, job: Job)
    requires target.targets != []
    ensures var b := BatchOf(w, job, target.targets);
      && (Learns(expression, b, target) <==> expression != "" && b.completed == target.targets)
      && (b.completed == target.targets <==>
            forall i | 0 <= i < |target.targets| :: Outcome(w, job, i, target.targets[i]).Ok?)
      && (FullySucceeded(b) <==> b.completed == target.targets)
  {
    ReachedBounds(w, job, target.targets, 0);
  }

  // ---------------------------------------------- what else names a target

  /** `_strip_target_parameters`: drops target fields at the top only. */
  function Stripped(fold: string -> string, parameters: Arguments): Arguments {
    map k | k in parameters && !Forbidden(fold, k) :: parameters[k]
  }

  /** For a planned action the shallow parameters are overlaid by the deeply
      cleaned ones, so no target field survives anywhere but the entity's name. */
  lemma PlannedArgumentsAreClean(fold: string -> string, plan: Plan)
    ensures BaseArguments(fold, Stripped(fold, plan.arguments), Some(plan))
         == Clean(fold, JObject(plan.arguments)).fields
    ensures NoTargetFields(fold, JObject(BaseArguments(fold, Stripped(fold, plan.arguments), Some(plan))))
  {
    CleanRemovesAll(fold, JObject(plan.arguments));
  }

  /** The argument itself names no target. */
  predicate Innocent(fold: string -> string, arguments: Arguments, k: string)
    requires k in arguments
  {
    !Forbidden(fold, k) && NoTargetFields(fold, arguments[k])
  }

  /** The entity's name is the only thing in a call that names a target. */
  predicate NamesOnlyItsEntity(fold: string -> string, arguments: Arguments) {
    forall k | k in arguments && k != "name" :: Innocent(fold, arguments, k)
  }

  /** The cleaned plan has an argument of that name. */
  predicate Overlaid(fold: string -> string, plan: Option<Plan>, k: string) {
    plan.Some? && k in plan.value.arguments && !Forbidden(fold, k)
  }

  /** A call names nothing but its entity exactly when those parameters do not
      that are passed on as they are: all of them without a plan, and with a plan
      those the cleaned plan does not overlay. */
  lemma NamesOnlyItsEntityExactlyWhen(fold: string -> string, parameters: Arguments, plan: Option<Plan>, tool: string,
      available: seq<string>, id: string)
    ensures var job := Job(tool, BaseArguments(fold, parameters, plan), available);
      NamesOnlyItsEntity(fold, ArgumentsFor(job, id))
      <==> forall k | k in parameters && k != "name" && !Overlaid(fold, plan, k) :: Innocent(fold, parameters, k)
  {
    var base := BaseArguments(fold, parameters, plan);
    var sent := ArgumentsFor(Job(tool, base, available), id);
    if plan.Some? {
      var clean := Clean(fold, JObject(plan.value.arguments)).fields;
      CleanRemovesAll(fold, JObject(plan.value.arguments));
      assert forall k | k in clean :: !Forbidden(fold, k) && NoTargetFields(fold, clean[k]);
      assert forall k | k in sent && k != "name" :: sent[k] == if k in clean then clean[k] else parameters[k];
    } else {
      assert forall k | k in sent && k != "name" :: sent[k] == parameters[k];
    }
  }

  /** A direct command can carry another target along: its parameters are not
      stripped. */
  lemma DirectTargetSurvives(fold: string -> string, area: string, tool: string, available: seq<string>, id: string)
    requires fold("area") == "area"
    ensures var parameters: Arguments := map["area" := JString(area)];
      var job := Job(tool, BaseArguments(fold, parameters, None), available);
      !NamesOnlyItsEntity(fold, ArgumentsFor(job, id))
  {
    var parameters: Arguments := map["area" := JString(area)];
    assert Forbidden(fold, "area") && "area" in ArgumentsFor(Job(tool, parameters, available), id);
  }
}
