/** What calls to Home Assistant's tools do to the entities of a house. */
module Effects {
  import opened Base
  import opened Catalog

  /** A call as it is sent: the tool, possibly behind a server prefix, and its arguments. */
  datatype Request = Request(tool: string, arguments: map<string, Json>)

  datatype Appliance = Appliance(on: bool, brightness: Option<Json>)

  /** The entities by id. */
  type House = map<string, Appliance>

  /** The tool is this one, by itself or behind a prefix that ends in a dot. */
  ghost predicate Named(tool: string, name: string) {
    tool == name || exists prefix :: tool == prefix + "." + name
  }

  /** The tool does what the action asks for. */
  ghost predicate Fits(action: Action, tool: string) {
    match action
    case TurnOn => Named(tool, "HassTurnOn")
    case TurnOff => Named(tool, "HassTurnOff")
    case SetBrightness => Named(tool, "HassLightSet")
  }

  /** What the server does to the entity a call names. */
  ghost function Changed(a: Appliance, r: Request): Appliance {
    if Named(r.tool, "HassTurnOn") then a.(on := true)
    else if Named(r.tool, "HassTurnOff") then a.(on := false)
    else if Named(r.tool, "HassLightSet") && "brightness" in r.arguments then
      a.(brightness := Some(r.arguments["brightness"]))
    else a
  }

  /** The call names the entity and nothing else in the house. */
  predicate Addresses(r: Request, id: string) {
    "name" in r.arguments && r.arguments["name"] == JString(id)
  }

  /** The house after one call. */
  ghost function AfterOne(house: House, r: Request): House {
    map id | id in house :: if Addresses(r, id) then Changed(house[id], r) else house[id]
  }

  /** The house after some calls. */
  ghost function After(house: House, sent: seq<Request>): House {
    if sent == [] then house else AfterOne(After(house, sent[..|sent| - 1]), sent[|sent| - 1])
  }

  /** Each call is for the entity in its place, with a tool for the action. */
  ghost predicate SentTo(action: Action, sent: seq<Request>, ids: seq<string>) {
    && |sent| == |ids|
    && forall i | 0 <= i < |ids| :: Fits(action, sent[i].tool) && Addresses(sent[i], ids[i])
  }

  lemma DotIn(name: string, prefix: string)
    ensures '.' in prefix + "." + name
  {
    assert (prefix + "." + name)[|prefix|] == '.';
  }

  /** After its last dot a text has no other. */
  lemma LastDot(p: string, a: string, r: string, b: string)
    requires '.' !in a && p + "." + a == r + "." + b
    ensures |r| <= |p|
  {
    var tool := p + "." + a;
    assert tool == r + "." + b;
    assert tool[|r|] == '.';
    assert forall i | |p| < i < |tool| :: tool[i] == a[i - |p| - 1];
  }

  /** No tool is two of the three at once. */
  lemma NamesDiffer(tool: string, a: string, b: string)
    requires '.' !in a && '.' !in b && Named(tool, a) && Named(tool, b)
    ensures a == b
  {
    if tool == a || tool == b {
      if p :| tool == p + "." + a { DotIn(a, p); }
      if p :| tool == p + "." + b { DotIn(b, p); }
    } else {
      var p :| tool == p + "." + a;
      var r :| tool == r + "." + b;
      LastDot(p, a, r, b);
      LastDot(r, b, p, a);
      assert a == tool[|p| + 1..] && b == tool[|r| + 1..];
    }
  }

  /** What a call with the action's tool does to the entity it names. */
  lemma FittingChanges(action: Action, a: Appliance, r: Request)
    requires Fits(action, r.tool)
    ensures action == TurnOn ==> Changed(a, r) == a.(on := true)
    ensures action == TurnOff ==> Changed(a, r) == a.(on := false)
    ensures action == SetBrightness && "brightness" in r.arguments ==>
              Changed(a, r) == a.(brightness := Some(r.arguments["brightness"]))
  {
    if action == TurnOff && Named(r.tool, "HassTurnOn") {
      NamesDiffer(r.tool, "HassTurnOn", "HassTurnOff");
    }
    if action == SetBrightness && Named(r.tool, "HassTurnOn") {
      NamesDiffer(r.tool, "HassTurnOn", "HassLightSet");
    }
    if action == SetBrightness && Named(r.tool, "HassTurnOff") {
      NamesDiffer(r.tool, "HassTurnOff", "HassLightSet");
    }
  }

  lemma {:induction false} OthersUntouched(house: House, sent: seq<Request>, ids: seq<string>, id: string)
    requires |sent| == |ids| && forall i | 0 <= i < |ids| :: Addresses(sent[i], ids[i])
    requires id !in ids && id in house
    ensures id in After(house, sent) && After(house, sent)[id] == house[id]
  {
    if sent == [] {
    } else {
      var n := |sent| - 1;
      OthersUntouched(house, sent[..n], ids[..n], id);
      assert ids[n] in ids;
    }
  }

  /** The one call for an entity is what changes it. */
  lemma {:induction false} EachIsChanged(house: House, sent: seq<Request>, ids: seq<string>, i: nat)
    requires |sent| == |ids| && forall k | 0 <= k < |ids| :: Addresses(sent[k], ids[k])
    requires Distinct(ids) && i < |ids| && ids[i] in house
    ensures ids[i] in After(house, sent) && After(house, sent)[ids[i]] == Changed(house[ids[i]], sent[i])
  {
    var n := |sent| - 1;
    if i == n {
      OthersUntouched(house, sent[..n], ids[..n], ids[n]);
    } else {
      EachIsChanged(house, sent[..n], ids[..n], i);
      assert ids[i] != ids[n];
    }
  }

  /** What is true of the house after calls with the action's tool for these
      entities: each is as the action wants it, in that respect only, and
      everything else is as it was. */
  ghost predicate Achieved(action: Action, house: House, sent: seq<Request>, ids: seq<string>) {
    var after := After(house, sent);
    && (forall id | id in house && id !in ids :: id in after && after[id] == house[id])
    && (forall i | 0 <= i < |ids| && i < |sent| && ids[i] in house ::
          && ids[i] in after
          && (action == TurnOn ==> after[ids[i]] == house[ids[i]].(on := true))
          && (action == TurnOff ==> after[ids[i]] == house[ids[i]].(on := false))
          && (action == SetBrightness && "brightness" in sent[i].arguments ==>
                after[ids[i]] == house[ids[i]].(brightness := Some(sent[i].arguments["brightness"]))))
  }

  lemma CallsAchieve(action: Action, house: House, sent: seq<Request>, ids: seq<string>)
    requires SentTo(action, sent, ids) && Distinct(ids)
    ensures Achieved(action, house, sent, ids)
  {
    forall id | id in house && id !in ids ensures id in After(house, sent) && After(house, sent)[id] == house[id] {
      OthersUntouched(house, sent, ids, id);
    }
    forall i | 0 <= i < |ids| && ids[i] in house
      ensures ids[i] in After(house, sent) && After(house, sent)[ids[i]] == Changed(house[ids[i]], sent[i])
    {
      EachIsChanged(house, sent, ids, i);
    }
    forall i | 0 <= i < |ids| && ids[i] in house
      ensures action == TurnOn ==> Changed(house[ids[i]], sent[i]) == house[ids[i]].(on := true)
      ensures action == TurnOff ==> Changed(house[ids[i]], sent[i]) == house[ids[i]].(on := false)
      ensures action == SetBrightness && "brightness" in sent[i].arguments ==>
                Changed(house[ids[i]], sent[i]) == house[ids[i]].(brightness := Some(sent[i].arguments["brightness"]))
    {
      FittingChanges(action, house[ids[i]], sent[i]);
    }
  }

  ghost predicate AchievedAnywhere(action: Action, sent: seq<Request>, ids: seq<string>) {
    forall house :: Achieved(action, house, sent, ids)
  }

  lemma CallsAchieveAnywhere(action: Action, sent: seq<Request>, ids: seq<string>)
    requires SentTo(action, sent, ids) && Distinct(ids)
    ensures AchievedAnywhere(action, sent, ids)
  {
    forall house ensures Achieved(action, house, sent, ids) {
      CallsAchieve(action, house, sent, ids);
    }
  }

  /** The entities named are as the action wants them; no other has changed. */
  predicate Shows(action: Action, house: House, after: House, ids: seq<string>) {
    && (forall id | id in house && id !in ids :: id in after && after[id] == house[id])
    && (action == TurnOn ==> forall id | id in house && id in ids :: id in after && after[id].on)
    && (action == TurnOff ==> forall id | id in house && id in ids :: id in after && !after[id].on)
  }

  predicate ShowsBrightness(house: House, after: House, ids: seq<string>, x: Json) {
    forall id | id in house && id in ids :: id in after && after[id].brightness == Some(x)
  }

  lemma AchievedShows(action: Action, house: House, sent: seq<Request>, ids: seq<string>)
    requires AchievedAnywhere(action, sent, ids) && |sent| == |ids|
    ensures Shows(action, house, After(house, sent), ids)
  {
    assert Achieved(action, house, sent, ids);
    var after := After(house, sent);
    forall id | id in house && id in ids
      ensures id in after && (action == TurnOn ==> after[id].on) && (action == TurnOff ==> !after[id].on)
    {
      var i :| 0 <= i < |ids| && ids[i] == id;
    }
  }

  lemma AchievedShowsBrightness(house: House, sent: seq<Request>, ids: seq<string>, x: Json)
    requires AchievedAnywhere(SetBrightness, sent, ids) && |sent| == |ids|
    requires forall i | 0 <= i < |ids| :: "brightness" in sent[i].arguments && sent[i].arguments["brightness"] == x
    ensures ShowsBrightness(house, After(house, sent), ids, x)
  {
    assert Achieved(SetBrightness, house, sent, ids);
    var after := After(house, sent);
    forall id | id in house && id in ids ensures id in after && after[id].brightness == Some(x) {
      var i :| 0 <= i < |ids| && ids[i] == id;
    }
  }
}
