/** The model registry: registration, promotion through gates, rollback and rejection. */
module ModelRegistry {
  import opened Sequences

  datatype Status = InDevelopment | Approved | Refused

  datatype Stage = Development | Staging | Production | Archived | Rejected

  type Metrics = map<string, real>

  datatype Model = Model(
    id: string, name: string, version: int, status: Status, stage: Stage, metrics: Metrics,
    approvedAt: Option<real>, approvedBy: Option<string>, rejectedAt: Option<real>, rejectedReason: Option<string>,
    deployedAt: Option<real>, deployedBy: Option<string>)

  // ---------- gates ----------

  function Metric(metrics: Metrics, name: string, default: real): real {
    if name in metrics then metrics[name] else default
  }

  /** `int(x)` truncates towards zero. */
  function Truncate(x: real): int {
    if x >= 0.0 then x.Floor else -(-x).Floor
  }

  predicate PassesGates(metrics: Metrics) {
    && Metric(metrics, "sharpe", 0.0) > 1.5
    && Metric(metrics, "max_drawdown", 1.0) < 0.25
    && Metric(metrics, "win_rate", 0.0) > 0.55
    && (var inSample, outSample := Metric(metrics, "in_sample_sharpe", 0.0), Metric(metrics, "out_sample_sharpe", 0.0);
        if inSample > 0.0 then outSample > 0.7 * inSample else false)
    && Truncate(Metric(metrics, "trades", 0.0)) >= 100
  }

  // ---------- the operations as functions of the registered models, in registration order ----------

  /** 0 when no model has the name. */
  function LatestVersion(models: seq<Model>, name: string): int {
    if models == [] then 0
    else
      var latest, last := LatestVersion(models[..|models| - 1], name), models[|models| - 1];
      if last.name == name && last.version > latest then last.version else latest
  }

  function NewModel(models: seq<Model>, id: string, name: string, metrics: Metrics): Model {
    Model(id, name, LatestVersion(models, name) + 1, InDevelopment, Development, metrics,
          None, None, None, None, None, None)
  }

  function IndexOf(models: seq<Model>, id: string): (i: nat)
    ensures i <= |models|
    ensures i < |models| ==> models[i].id == id
    ensures forall k :: 0 <= k < i ==> models[k].id != id
  {
    IndexWhere(models, (m: Model) => m.id == id)
  }

  predicate Promotable(models: seq<Model>, id: string) {
    IndexOf(models, id) < |models| && PassesGates(models[IndexOf(models, id)].metrics)
  }

  function Staged(m: Model, who: string, now: real): Model {
    m.(stage := Staging, status := Approved, approvedAt := Some(now), approvedBy := Some(who))
  }

  function Deployed(m: Model, who: string, now: real): Model {
    m.(stage := Production, status := Approved, deployedAt := Some(now), deployedBy := Some(who),
       approvedAt := Some(now), approvedBy := Some(who))
  }

  function RejectedModel(m: Model, who: string, reason: string, now: real): Model {
    m.(status := Refused, stage := Rejected, rejectedAt := Some(now), rejectedReason := Some(who + ": " + reason))
  }

  function ArchiveIfLive(m: Model, name: string): Model {
    if m.name == name && m.stage == Production then m.(stage := Archived) else m
  }

  function ArchiveLive(models: seq<Model>, name: string): (r: seq<Model>)
    ensures |r| == |models|
  {
    Map((m: Model) => ArchiveIfLive(m, name), models)
  }

  function Stage_(models: seq<Model>, id: string, who: string, now: real): seq<Model> {
    if !Promotable(models, id) then models
    else var i := IndexOf(models, id); models[i := Staged(models[i], who, now)]
  }

  function Deploy(models: seq<Model>, id: string, who: string, now: real): seq<Model> {
    if !Promotable(models, id) then models
    else
      var i := IndexOf(models, id);
      var archived := ArchiveLive(models, models[i].name);
      archived[i := Deployed(archived[i], who, now)]
  }

  function VersionKey(m: Model): real {
    m.version as real
  }

  function Candidates(models: seq<Model>, name: string): seq<Model> {
    Filter((m: Model) => m.name == name && m.status == Approved, models)
  }

  function ApprovedVersions(models: seq<Model>, name: string): seq<Model> {
    Sort(Candidates(models, name), VersionKey)
  }

  predicate CanRollback(models: seq<Model>, name: string) {
    |ApprovedVersions(models, name)| >= 2
  }

  function Current(models: seq<Model>, name: string): Model
    requires CanRollback(models, name)
  {
    var versions := ApprovedVersions(models, name);
    versions[|versions| - 1]
  }

  function Previous(models: seq<Model>, name: string): Model
    requires CanRollback(models, name)
  {
    var versions := ApprovedVersions(models, name);
    versions[|versions| - 2]
  }

  function RolledBackModel(m: Model, current: string, previous: string, now: real): Model {
    if m.id == previous then m.(stage := Production, deployedAt := Some(now))
    else if m.id == current then m.(stage := Archived)
    else m
  }

  function Rollback(models: seq<Model>, name: string, now: real): (r: seq<Model>)
    requires CanRollback(models, name)
    ensures |r| == |models|
  {
    var current, previous := Current(models, name).id, Previous(models, name).id;
    Map((m: Model) => RolledBackModel(m, current, previous, now), models)
  }

  function Reject(models: seq<Model>, id: string, who: string, reason: string, now: real): seq<Model> {
    var i := IndexOf(models, id);
    if i < |models| then models[i := RejectedModel(models[i], who, reason, now)] else models
  }

  function ProductionModel(models: seq<Model>, name: string): Option<Model> {
    var live := Sort(Filter((m: Model) => m.name == name && m.stage == Production && m.status == Approved, models),
                     VersionKey);
    if live == [] then None else Some(live[|live| - 1])
  }

  datatype RegistryError = NoRollbackCandidate | ModelNotFound

  /** The registry object; `models` is the dictionary in insertion order. */
  class Registry {
    var models: seq<Model>

    constructor ()
      ensures models == []
    {
      models := [];
    }

    method Register(id: string, name: string, metrics: Metrics) returns (model: Model)
      modifies this
      ensures model == NewModel(old(models), id, name, metrics)
      ensures models == old(models) + [model]
    {
      var latest := 0;
      for i := 0 to |models|
        invariant latest == LatestVersion(models[..i], name)
        invariant models == old(models)
      {
        assert models[..i + 1][..i] == models[..i];
        if models[i].name == name && models[i].version > latest {
          latest := models[i].version;
        }
      }
      assert models[..|models|] == models;
      model := Model(id, name, latest + 1, InDevelopment, Development, metrics, None, None, None, None, None, None);
      models := models + [model];
    }

    method GetProductionModel(name: string) returns (model: Option<Model>)
      ensures model == ProductionModel(models, name)
    {
      var live := Filter((m: Model) => m.name == name && m.stage == Production && m.status == Approved, models);
      live := Sort(live, VersionKey);
      model := if live == [] then None else Some(live[|live| - 1]);
    }

    method PromoteToStaging(id: string, who: string, now: real) returns (ok: bool)
      modifies this
      ensures ok == Promotable(old(models), id)
      ensures models == Stage_(old(models), id, who, now)
    {
      var i := IndexOf(models, id);
      if i == |models| || !PassesGates(models[i].metrics) {
        return false;
      }
      models := models[i := Staged(models[i], who, now)];
      return true;
    }

    method PromoteToProduction(id: string, who: string, now: real) returns (ok: bool)
      modifies this
      ensures ok == Promotable(old(models), id)
      ensures models == Deploy(old(models), id, who, now)
    {
      var i := IndexOf(models, id);
      if i == |models| || !PassesGates(models[i].metrics) {
        return false;
      }
      var name := models[i].name;
      hide PassesGates;
      ghost var before := models;
      for k := 0 to |models|
        invariant |models| == |before|
        invariant forall j :: 0 <= j < k ==> models[j] == ArchiveIfLive(before[j], name)
        invariant forall j :: k <= j < |models| ==> models[j] == before[j]
      {
        if models[k].name == name && models[k].stage == Production {
          models := models[k := models[k].(stage := Archived)];
        }
      }
      assert models == ArchiveLive(before, name);
      models := models[i := Deployed(models[i], who, now)];
      return true;
    }

    method RollbackModel(name: string, now: real) returns (r: Result<string, RegistryError>)
      modifies this
      ensures r.Ok? <==> CanRollback(old(models), name)
      ensures r.Ok? ==> models == Rollback(old(models), name, now) && r.value == Previous(old(models), name).id
      ensures r.Err? ==> models == old(models) && r.error == NoRollbackCandidate
    {
      var versions := ApprovedVersions(models, name);
      if |versions| < 2 {
        return Err(NoRollbackCandidate);
      }
      var current, previous := versions[|versions| - 1].id, versions[|versions| - 2].id;
      models := Map((m: Model) => RolledBackModel(m, current, previous, now), models);
      return Ok(previous);
    }

    method RejectModel(id: string, who: string, reason: string, now: real) returns (r: Result<(), RegistryError>)
      modifies this
      ensures r.Ok? <==> IndexOf(old(models), id) < |old(models)|
      ensures models == Reject(old(models), id, who, reason, now)
      ensures r.Err? ==> r.error == ModelNotFound
    {
      var i := IndexOf(models, id);
      if i == |models| {
        return Err(ModelNotFound);
      }
      models := models[i := RejectedModel(models[i], who, reason, now)];
      return Ok(());
    }
  }
}
