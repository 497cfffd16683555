/** What every sequence of registry operations keeps, and exactly when a rollback is safe. */
module RegistryLaws {
  import opened Sequences
  import opened ModelRegistry

  // ---------- operation sequences ----------

  datatype Op =
    | Register(id: string, name: string, metrics: Metrics)
    | PromoteToStaging(id: string, who: string, now: real)
    | PromoteToProduction(id: string, who: string, now: real)
    | RollBack(name: string, now: real)
    | Refuse(id: string, who: string, reason: string, now: real)

  /** An operation that returns false or raises leaves the registry as it is. */
  function Next(models: seq<Model>, op: Op): seq<Model> {
    match op
    case Register(id, name, metrics) => models + [NewModel(models, id, name, metrics)]
    case PromoteToStaging(id, who, now) => Stage_(models, id, who, now)
    case PromoteToProduction(id, who, now) => Deploy(models, id, who, now)
    case RollBack(name, now) => if CanRollback(models, name) then Rollback(models, name, now) else models
    case Refuse(id, who, reason, now) => Reject(models, id, who, reason, now)
  }

  /** Registered ids are uuids, taken to be fresh. */
  ghost predicate Fresh(models: seq<Model>, op: Op) {
    op.Register? ==> forall i :: 0 <= i < |models| ==> models[i].id != op.id
  }

  function Run(ops: seq<Op>): seq<Model> {
    if ops == [] then [] else Next(Run(ops[..|ops| - 1]), ops[|ops| - 1])
  }

  ghost predicate AllFresh(ops: seq<Op>) {
    ops != [] ==> AllFresh(ops[..|ops| - 1]) && Fresh(Run(ops[..|ops| - 1]), ops[|ops| - 1])
  }

  // ---------- the invariant ----------

  function CountName(models: seq<Model>, name: string): nat {
    if models == [] then 0
    else CountName(models[..|models| - 1], name) + if models[|models| - 1].name == name then 1 else 0
  }

  /** The k-th model registered under a name has version k. */
  ghost predicate Versioned(models: seq<Model>) {
    forall i :: 0 <= i < |models| ==> models[i].version == CountName(models[..i], models[i].name) + 1
  }

  ghost predicate DistinctIds(models: seq<Model>) {
    forall i, j :: 0 <= i < j < |models| ==> models[i].id != models[j].id
  }

  predicate ModelOk(m: Model) {
    && (m.status == Approved <==> m.stage == Staging || m.stage == Production || m.stage == Archived)
    && (m.status == Refused <==> m.stage == Rejected)
    && (m.status == Approved ==> PassesGates(m.metrics))
  }

  ghost predicate ModelsOk(models: seq<Model>) {
    forall i :: 0 <= i < |models| ==> ModelOk(models[i])
  }

  ghost predicate Inv(models: seq<Model>) {
    Versioned(models) && DistinctIds(models) && ModelsOk(models)
  }

  /** Every operation but registration keeps who the models are. */
  ghost predicate SameIdentities(models: seq<Model>, after: seq<Model>) {
    && |models| == |after|
    && forall i :: 0 <= i < |models| ==>
         && after[i].id == models[i].id && after[i].name == models[i].name
         && after[i].version == models[i].version && after[i].metrics == models[i].metrics
  }

  lemma {:induction false} CountDependsOnNames(models: seq<Model>, after: seq<Model>, name: string)
    requires SameIdentities(models, after)
    ensures CountName(models, name) == CountName(after, name)
  {
    if models != [] {
      CountDependsOnNames(models[..|models| - 1], after[..|after| - 1], name);
    }
  }

  lemma IdentitiesKeepVersions(models: seq<Model>, after: seq<Model>)
    requires SameIdentities(models, after) && Versioned(models) && DistinctIds(models)
    ensures Versioned(after) && DistinctIds(after)
  {
    forall i | 0 <= i < |after| ensures after[i].version == CountName(after[..i], after[i].name) + 1 {
      CountDependsOnNames(models[..i], after[..i], after[i].name);
    }
  }

  lemma {:induction false} LatestIsCount(models: seq<Model>, name: string)
    requires Versioned(models)
    ensures LatestVersion(models, name) == CountName(models, name)
  {
    if models != [] {
      InitIsVersioned(models);
      LatestIsCount(models[..|models| - 1], name);
    }
  }

  lemma RegisterKeepsInv(models: seq<Model>, op: Op)
    requires Inv(models) && op.Register? && Fresh(models, op)
    ensures Inv(Next(models, op))
  {
    LatestIsCount(models, op.name);
    var m := NewModel(models, op.id, op.name, op.metrics);
    hide LatestVersion, CountName, PassesGates, Versioned, DistinctIds;
    AppendIsVersioned(models, m);
    AppendIsDistinct(models, m);
  }

  lemma AppendIsVersioned(models: seq<Model>, m: Model)
    requires Versioned(models) && m.version == CountName(models, m.name) + 1
    ensures Versioned(models + [m])
  {
    hide CountName;
    var after := models + [m];
    forall i | 0 <= i < |after| ensures after[i].version == CountName(after[..i], after[i].name) + 1 {
      assert after[..i] == models[..i];
      assert i == |models| ==> models[..i] == models;
    }
  }

  lemma AppendIsDistinct(models: seq<Model>, m: Model)
    requires DistinctIds(models) && forall i :: 0 <= i < |models| ==> models[i].id != m.id
    ensures DistinctIds(models + [m])
  {
  }

  /** The versions a rollback chooses from are registered, approved models of the name. */
  lemma ApprovedVersionsAreRegistered(models: seq<Model>, name: string)
    ensures forall m :: m in ApprovedVersions(models, name) <==> m in models && m.name == name && m.status == Approved
  {
    var p := (m: Model) => m.name == name && m.status == Approved;
    FilterMembers(p, models);
    SortMembers(Filter(p, models), VersionKey);
  }

  lemma SameIdSameModel(models: seq<Model>, a: Model, b: Model)
    requires DistinctIds(models) && a in models && b in models && a.id == b.id
    ensures a == b
  {
    var i :| 0 <= i < |models| && models[i] == a;
    var j :| 0 <= j < |models| && models[j] == b;
    assert i == j;
  }

  lemma RollbackKeepsModelsOk(models: seq<Model>, name: string, now: real)
    requires DistinctIds(models) && ModelsOk(models) && CanRollback(models, name)
    ensures ModelsOk(Rollback(models, name, now))
  {
    var after := Rollback(models, name, now);
    var current, previous := Current(models, name), Previous(models, name);
    ApprovedVersionsAreRegistered(models, name);
    assert current in ApprovedVersions(models, name) && previous in ApprovedVersions(models, name);
    hide PassesGates, ApprovedVersions, DistinctIds;
    forall i | 0 <= i < |after| ensures ModelOk(after[i]) {
      assert ModelOk(models[i]);
      if models[i].id == previous.id {
        SameIdSameModel(models, models[i], previous);
      } else if models[i].id == current.id {
        SameIdSameModel(models, models[i], current);
      }
    }
  }

  lemma RollbackKeepsIdentities(models: seq<Model>, name: string, now: real)
    requires CanRollback(models, name)
    ensures SameIdentities(models, Rollback(models, name, now))
  {
    hide CanRollback, Current, Previous;
  }

  lemma RollbackKeepsInv(models: seq<Model>, name: string, now: real)
    requires Inv(models) && CanRollback(models, name)
    ensures Inv(Rollback(models, name, now))
  {
    RollbackKeepsModelsOk(models, name, now);
    hide Versioned, DistinctIds, ModelsOk, ApprovedVersions;
    RollbackKeepsIdentities(models, name, now);
    hide SameIdentities, Rollback;
    IdentitiesKeepVersions(models, Rollback(models, name, now));
  }

  lemma StagingKeepsModelsOk(models: seq<Model>, id: string, who: string, now: real)
    requires ModelsOk(models)
    ensures ModelsOk(Stage_(models, id, who, now)) && SameIdentities(models, Stage_(models, id, who, now))
  {
    hide PassesGates;
  }

  lemma DeploymentKeepsModelsOk(models: seq<Model>, id: string, who: string, now: real)
    requires ModelsOk(models)
    ensures ModelsOk(Deploy(models, id, who, now)) && SameIdentities(models, Deploy(models, id, who, now))
  {
    hide PassesGates;
  }

  lemma RejectionKeepsModelsOk(models: seq<Model>, id: string, who: string, reason: string, now: real)
    requires ModelsOk(models)
    ensures ModelsOk(Reject(models, id, who, reason, now))
    ensures SameIdentities(models, Reject(models, id, who, reason, now))
  {
    hide PassesGates;
  }

  lemma OpKeepsInv(models: seq<Model>, op: Op)
    requires Inv(models) && Fresh(models, op)
    ensures Inv(Next(models, op))
  {
    match op
    case Register(_, _, _) => RegisterKeepsInv(models, op);
    case PromoteToStaging(id, who, now) =>
      hide Versioned, DistinctIds, ModelsOk, SameIdentities, Stage_;
      StagingKeepsModelsOk(models, id, who, now);
      IdentitiesKeepVersions(models, Next(models, op));
    case PromoteToProduction(id, who, now) =>
      hide Versioned, DistinctIds, ModelsOk, SameIdentities, Deploy;
      DeploymentKeepsModelsOk(models, id, who, now);
      IdentitiesKeepVersions(models, Next(models, op));
    case RollBack(name, now) =>
      hide Inv, Rollback;
      if CanRollback(models, name) {
        RollbackKeepsInv(models, name, now);
      }
    case Refuse(id, who, reason, now) =>
      hide Versioned, DistinctIds, ModelsOk, SameIdentities, Reject;
      RejectionKeepsModelsOk(models, id, who, reason, now);
      IdentitiesKeepVersions(models, Next(models, op));
  }

  lemma {:induction false} RunKeepsInv(ops: seq<Op>)
    requires AllFresh(ops)
    ensures Inv(Run(ops))
  {
    if ops != [] {
      RunKeepsInv(ops[..|ops| - 1]);
      OpKeepsInv(Run(ops[..|ops| - 1]), ops[|ops| - 1]);
    }
  }

  ghost predicate HasVersion(models: seq<Model>, name: string, version: int) {
    exists i :: 0 <= i < |models| && models[i].name == name && models[i].version == version
  }

  lemma {:induction false} VersionsAreOneToCount(models: seq<Model>, name: string, version: int)
    requires Versioned(models)
    ensures HasVersion(models, name, version) <==> 1 <= version <= CountName(models, name)
  {
    if models != [] {
      var init, last := models[..|models| - 1], models[|models| - 1];
      InitIsVersioned(models);
      VersionsAreOneToCount(init, name, version);
      assert last.version == CountName(init, last.name) + 1;
      hide Versioned;
      LastVersion(models, name, version);
    }
  }

  lemma LastVersion(models: seq<Model>, name: string, version: int)
    requires models != []
    ensures var init, last := models[..|models| - 1], models[|models| - 1];
            HasVersion(models, name, version) <==>
              (HasVersion(init, name, version) || (last.name == name && last.version == version))
  {
    var init := models[..|models| - 1];
    assert forall i :: 0 <= i < |init| ==> init[i] == models[i];
  }

  /** After any operations, each name has exactly versions 1..n, and what is approved has passed every gate. */
  lemma RegistryHolds(ops: seq<Op>)
    requires AllFresh(ops)
    ensures var models := Run(ops);
            && (forall name, version :: HasVersion(models, name, version) <==> 1 <= version <= CountName(models, name))
            && (forall i, j :: 0 <= i < j < |models| && models[i].name == models[j].name ==>
                  models[i].version < models[j].version)
            && (forall i :: 0 <= i < |models| ==> ModelOk(models[i]))
  {
    RunKeepsInv(ops);
    var models := Run(ops);
    forall name, version ensures HasVersion(models, name, version) <==> 1 <= version <= CountName(models, name) {
      VersionsAreOneToCount(models, name, version);
    }
    forall i, j | 0 <= i < j < |models| && models[i].name == models[j].name
      ensures models[i].version < models[j].version
    {
      LaterIsNewer(models, i, j);
    }
  }

  lemma {:induction false} CountGrows(models: seq<Model>, i: nat, j: nat, name: string)
    requires i <= j <= |models|
    ensures CountName(models[..i], name) <= CountName(models[..j], name)
    decreases j - i
  {
    if i < j {
      CountGrows(models, i, j - 1, name);
      assert models[..j][..j - 1] == models[..j - 1];
    }
  }

  lemma LaterIsNewer(models: seq<Model>, i: nat, j: nat)
    requires Versioned(models) && i < j < |models| && models[i].name == models[j].name
    ensures models[i].version < models[j].version
  {
    CountGrows(models, i + 1, j, models[i].name);
    assert models[..i + 1][..i] == models[..i];
  }

  // ---------- at most one model in production ----------

  predicate Live(m: Model, name: string) {
    m.name == name && m.stage == Production
  }

  ghost predicate AtMostOneLive(models: seq<Model>, name: string) {
    forall i, j :: 0 <= i < j < |models| ==> !(Live(models[i], name) && Live(models[j], name))
  }

  /** An approved version below the two newest is in production. */
  ghost predicate OlderIsLive(models: seq<Model>, name: string)
    requires CanRollback(models, name)
  {
    exists i :: 0 <= i < |models| && Live(models[i], name)
                && models[i].id != Current(models, name).id && models[i].id != Previous(models, name).id
  }

  lemma CurrentAndPreviousDiffer(models: seq<Model>, name: string)
    requires Inv(models) && CanRollback(models, name)
    ensures Current(models, name) in models && Previous(models, name) in models
    ensures Current(models, name).name == Previous(models, name).name == name
    ensures Current(models, name).id != Previous(models, name).id
    ensures Previous(models, name).version < Current(models, name).version
    ensures forall m :: m in models && m.name == name && m.status == Approved && m.id != Current(models, name).id ==>
              m.version <= Previous(models, name).version
  {
    hide Inv, Rising, ApprovedVersions;
    ApprovedVersionsAreSorted(models, name);
    ApprovedVersionsAreRegistered(models, name);
    var versions := ApprovedVersions(models, name);
    TopTwo(versions);
    assert versions[|versions| - 1] in versions && versions[|versions| - 2] in versions;
  }

  lemma TopTwo(versions: seq<Model>)
    requires Rising(versions) && |versions| >= 2
    ensures var last, before := versions[|versions| - 1], versions[|versions| - 2];
            && before.version < last.version && before.id != last.id
            && forall m :: m in versions && m.id != last.id ==> m.version <= before.version
  {
    var n := |versions|;
    forall m | m in versions && m.id != versions[n - 1].id ensures m.version <= versions[n - 2].version {
      var k :| 0 <= k < n && versions[k] == m;
      assert k < n - 1;
    }
  }

  ghost predicate Rising(versions: seq<Model>) {
    forall i, j :: 0 <= i < j < |versions| ==>
      versions[i].version < versions[j].version && versions[i].id != versions[j].id
  }

  /** In registration order the approved versions of a name are already sorted, strictly. */
  lemma ApprovedVersionsAreSorted(models: seq<Model>, name: string)
    requires Inv(models)
    ensures ApprovedVersions(models, name) == Candidates(models, name)
    ensures Rising(ApprovedVersions(models, name))
  {
    var p := (m: Model) => m.name == name && m.status == Approved;
    hide Versioned, DistinctIds, ModelsOk, Rising;
    FilteredVersionsRise(models, p, name);
    RisingIsSorted(Filter(p, models));
  }

  lemma RisingIsSorted(versions: seq<Model>)
    requires Rising(versions)
    ensures Sort(versions, VersionKey) == versions
  {
    assert forall i, j :: 0 <= i < j < |versions| ==> VersionKey(versions[i]) < VersionKey(versions[j]);
    SortOfSorted(versions, VersionKey);
  }

  lemma InitIsVersioned(models: seq<Model>)
    requires models != [] && Versioned(models)
    ensures Versioned(models[..|models| - 1])
  {
    var init := models[..|models| - 1];
    forall i | 0 <= i < |init| ensures init[i].version == CountName(init[..i], init[i].name) + 1 {
      assert init[..i] == models[..i];
    }
  }

  lemma {:induction false} FilteredVersionsRise(models: seq<Model>, p: Model -> bool, name: string)
    requires Versioned(models) && DistinctIds(models) && forall m :: m in models && p(m) ==> m.name == name
    ensures Rising(Filter(p, models))
  {
    if models != [] {
      var init, last := models[..|models| - 1], models[|models| - 1];
      InitIsVersioned(models);
      assert DistinctIds(init);
      assert forall m :: m in init ==> m in models;
      FilteredVersionsRise(init, p, name);
      if p(last) {
        assert last in models;
        FilterMembers(p, init);
        LastIsNewest(models, p, name);
        hide Versioned, DistinctIds;
      }
    }
  }

  lemma LastIsNewest(models: seq<Model>, p: Model -> bool, name: string)
    requires models != [] && Versioned(models) && DistinctIds(models)
    requires models[|models| - 1].name == name && forall m :: m in models && p(m) ==> m.name == name
    ensures forall m :: m in models[..|models| - 1] && p(m) ==>
              m.version < models[|models| - 1].version && m.id != models[|models| - 1].id
  {
    hide Versioned;
    forall m | m in models[..|models| - 1] && p(m)
      ensures m.version < models[|models| - 1].version && m.id != models[|models| - 1].id
    {
      var k :| 0 <= k < |models| - 1 && models[k] == m;
      LaterIsNewer(models, k, |models| - 1);
    }
  }

  /** A promotion to production always leaves exactly the promoted model in production. */
  lemma PromotionLeavesOneLive(models: seq<Model>, id: string, who: string, now: real)
    requires DistinctIds(models) && Promotable(models, id)
    ensures var after := Deploy(models, id, who, now);
            var name := models[IndexOf(models, id)].name;
            forall i :: 0 <= i < |after| ==> (Live(after[i], name) <==> i == IndexOf(models, id))
  {
  }

  lemma IndexOfModel(models: seq<Model>, m: Model) returns (i: nat)
    requires m in models
    ensures i < |models| && models[i] == m
  {
    i :| 0 <= i < |models| && models[i] == m;
  }

  /** A rollback puts one model into production, takes another out, and leaves the rest alone. */
  lemma RolledBackPair(models: seq<Model>, name: string, now: real) returns (p: nat, c: nat)
    requires Inv(models) && CanRollback(models, name)
    ensures p < |models| && c < |models|
    ensures models[p] == Previous(models, name) && models[c] == Current(models, name)
    ensures var after := Rollback(models, name, now);
            && Live(after[p], name) && !Live(after[c], name)
            && forall i :: 0 <= i < |models| && i != p && i != c ==>
                 after[i] == models[i] && models[i].id != models[p].id && models[i].id != models[c].id
  {
    var current, previous := Current(models, name), Previous(models, name);
    CurrentAndPreviousDiffer(models, name);
    p := IndexOfModel(models, previous);
    c := IndexOfModel(models, current);
    IdsOfOthers(models, p, c);
    hide Inv, ApprovedVersions, CanRollback, Current, Previous;
  }

  /** A rollback leaves at most one model of the name in production exactly when no older version is there. */
  lemma RollbackIsSafeIff(models: seq<Model>, name: string, now: real)
    requires Inv(models) && CanRollback(models, name) && AtMostOneLive(models, name)
    ensures AtMostOneLive(Rollback(models, name, now), name) <==> !OlderIsLive(models, name)
  {
    var after := Rollback(models, name, now);
    var p, c := RolledBackPair(models, name, now);
    hide Inv, CanRollback, Rollback, Live, Current, Previous;
    if OlderIsLive(models, name) {
      var k :| 0 <= k < |models| && Live(models[k], name) && models[k].id != models[c].id && models[k].id != models[p].id;
      assert Live(after[k], name) && (k < p || p < k);
    }
  }

  lemma IdsOfOthers(models: seq<Model>, p: nat, c: nat)
    requires Inv(models) && p < |models| && c < |models|
    ensures forall i :: 0 <= i < |models| && i != p && i != c ==> models[i].id != models[p].id && models[i].id != models[c].id
  {
  }

  /** Every rollback of the run meets the condition above. */
  ghost predicate SafeRollbacks(ops: seq<Op>) {
    ops != [] ==>
      var models, op := Run(ops[..|ops| - 1]), ops[|ops| - 1];
      && SafeRollbacks(ops[..|ops| - 1])
      && (op.RollBack? && CanRollback(models, op.name) ==> !OlderIsLive(models, op.name))
  }

  lemma DeployKeepsOneLive(models: seq<Model>, id: string, who: string, now: real, name: string)
    requires DistinctIds(models) && AtMostOneLive(models, name)
    ensures AtMostOneLive(Deploy(models, id, who, now), name)
  {
    hide PassesGates;
    if Promotable(models, id) {
      PromotionLeavesOneLive(models, id, who, now);
      var after := Deploy(models, id, who, now);
      if models[IndexOf(models, id)].name != name {
        assert forall i :: 0 <= i < |after| && Live(after[i], name) ==> Live(models[i], name);
      }
    }
  }

  /** An operation that puts no new model of the name into production keeps the bound. */
  lemma NoNewLive(models: seq<Model>, after: seq<Model>, name: string)
    requires AtMostOneLive(models, name)
    requires forall i :: 0 <= i < |after| && Live(after[i], name) ==> i < |models| && Live(models[i], name)
    ensures AtMostOneLive(after, name)
  {
  }

  lemma OpKeepsOneLive(models: seq<Model>, op: Op, name: string)
    requires Inv(models) && Fresh(models, op) && AtMostOneLive(models, name)
    requires op.RollBack? && CanRollback(models, op.name) ==> !OlderIsLive(models, op.name)
    ensures AtMostOneLive(Next(models, op), name)
  {
    hide PassesGates, AtMostOneLive, ApprovedVersions, Versioned, DistinctIds, ModelsOk;
    match op
    case PromoteToProduction(id, who, now) => DeployKeepsOneLive(models, id, who, now, name);
    case RollBack(rolled, now) =>
      if CanRollback(models, rolled) {
        if rolled == name {
          RollbackIsSafeIff(models, name, now);
        } else {
          RollbackTouchesOneName(models, rolled, name, now);
          NoNewLive(models, Next(models, op), name);
        }
      }
    case _ => NoNewLive(models, Next(models, op), name);
  }

  lemma RollbackTouchesOneName(models: seq<Model>, rolled: string, name: string, now: real)
    requires Inv(models) && CanRollback(models, rolled) && rolled != name
    ensures forall i :: 0 <= i < |models| && Live(Rollback(models, rolled, now)[i], name) ==> Live(models[i], name)
  {
    CurrentAndPreviousDiffer(models, rolled);
    var current, previous := Current(models, rolled), Previous(models, rolled);
    hide DistinctIds, Versioned, ModelsOk, ApprovedVersions;
    forall i | 0 <= i < |models| && models[i].id == previous.id ensures models[i] == previous {
      SameIdSameModel(models, models[i], previous);
    }
  }

  /** With safe rollbacks only, no name ever has two models in production. */
  lemma {:induction false} OneLiveModelPerName(ops: seq<Op>, name: string)
    requires AllFresh(ops) && SafeRollbacks(ops)
    ensures AtMostOneLive(Run(ops), name)
  {
    if ops != [] {
      OneLiveModelPerName(ops[..|ops| - 1], name);
      RunKeepsInv(ops[..|ops| - 1]);
      OpKeepsOneLive(Run(ops[..|ops| - 1]), ops[|ops| - 1], name);
    }
  }

  // ---------- a rollback that leaves two models in production ----------

  function GoodMetrics(): Metrics {
    map["sharpe" := 2.0, "max_drawdown" := 0.1, "win_rate" := 0.6,
        "in_sample_sharpe" := 2.0, "out_sample_sharpe" := 1.8, "trades" := 200.0]
  }

  function Nth(id: string, version: int): Model {
    Model(id, "model", version, InDevelopment, Development, GoodMetrics(), None, None, None, None, None, None)
  }

  /** Three versions, the first in production and the two newer ones staged. */
  function ThreeVersions(): seq<Model> {
    [Deployed(Nth("a", 1), "user", 0.0), Staged(Nth("b", 2), "user", 0.0), Staged(Nth("c", 3), "user", 0.0)]
  }

  function NewVersions(): seq<Model> {
    [Nth("a", 1), Nth("b", 2), Nth("c", 3)]
  }

  function Registrations(): seq<Op> {
    [Register("a", "model", GoodMetrics()), Register("b", "model", GoodMetrics()), Register("c", "model", GoodMetrics())]
  }

  function Promotions(): seq<Op> {
    [PromoteToProduction("a", "user", 0.0), PromoteToStaging("b", "user", 0.0), PromoteToStaging("c", "user", 0.0)]
  }

  lemma RunAppend(ops: seq<Op>, op: Op)
    ensures Run(ops + [op]) == Next(Run(ops), op)
    ensures AllFresh(ops + [op]) <==> AllFresh(ops) && Fresh(Run(ops), op)
  {
    assert (ops + [op])[..|ops|] == ops;
  }

  lemma NoOps()
    ensures Run([]) == [] && AllFresh([])
  {
  }

  lemma RegisterNext(models: seq<Model>, id: string, version: int)
    requires LatestVersion(models, "model") == version - 1
    ensures Next(models, Register(id, "model", GoodMetrics())) == models + [Nth(id, version)]
    ensures LatestVersion(models + [Nth(id, version)], "model") == version
  {
    hide GoodMetrics;
    assert (models + [Nth(id, version)])[..|models|] == models;
  }

  lemma ThreeAreRegistered()
    ensures Run(Registrations()) == NewVersions() && AllFresh(Registrations())
  {
    var r := Registrations();
    hide GoodMetrics, Run, AllFresh, Next, LatestVersion;
    NoOps();
    assert LatestVersion([], "model") == 0 by { NoVersions(); }
    var a, b, c := Nth("a", 1), Nth("b", 2), Nth("c", 3);
    assert [] + [r[0]] == [r[0]] && [r[0]] + [r[1]] == [r[0], r[1]] && [r[0], r[1]] + [r[2]] == r;
    assert [] + [a] == [a] && [a] + [b] == [a, b] && [a, b] + [c] == NewVersions();
    RunAppend([], r[0]);
    RegisterNext([], "a", 1);
    FreshIn([], r[0]);
    RunAppend([r[0]], r[1]);
    RegisterNext([a], "b", 2);
    FreshIn([a], r[1]);
    RunAppend([r[0], r[1]], r[2]);
    RegisterNext([a, b], "c", 3);
    FreshIn([a, b], r[2]);
  }

  lemma FreshIn(models: seq<Model>, op: Op)
    requires op.Register? && forall m :: m in models ==> m.id != op.id
    ensures Fresh(models, op)
  {
  }

  lemma NoVersions()
    ensures LatestVersion([], "model") == 0
  {
  }

  lemma PromotedNext()
    ensures Deploy(NewVersions(), "a", "user", 0.0) == [Deployed(Nth("a", 1), "user", 0.0), Nth("b", 2), Nth("c", 3)]
    ensures Stage_([Deployed(Nth("a", 1), "user", 0.0), Nth("b", 2), Nth("c", 3)], "b", "user", 0.0)
              == [Deployed(Nth("a", 1), "user", 0.0), Staged(Nth("b", 2), "user", 0.0), Nth("c", 3)]
    ensures Stage_([Deployed(Nth("a", 1), "user", 0.0), Staged(Nth("b", 2), "user", 0.0), Nth("c", 3)], "c", "user", 0.0) == ThreeVersions()
  {
    assert PassesGates(GoodMetrics());
    hide GoodMetrics, PassesGates, IndexOf;
  }

  lemma ThreeVersionsAreReached()
    ensures AllFresh(Registrations() + Promotions()) && Run(Registrations() + Promotions()) == ThreeVersions()
  {
    var r, p := Registrations(), Promotions();
    hide GoodMetrics, Run, AllFresh, Registrations, ThreeVersions, NewVersions, Deploy, Stage_, Nth;
    ThreeAreRegistered();
    PromotedNext();
    RunAppend(r, p[0]);
    RunAppend(r + [p[0]], p[1]);
    RunAppend(r + [p[0], p[1]], p[2]);
    assert r + [p[0]] + [p[1]] == r + [p[0], p[1]] && r + [p[0], p[1]] + [p[2]] == r + p;
  }

  lemma RollbackNext(models: seq<Model>, name: string, now: real)
    requires CanRollback(models, name)
    ensures Next(models, RollBack(name, now)) == Rollback(models, name, now)
    ensures Fresh(models, RollBack(name, now))
  {
    hide CanRollback, Rollback;
  }

  lemma ThreeAreApproved()
    requires Inv(ThreeVersions())
    ensures ApprovedVersions(ThreeVersions(), "model") == ThreeVersions()
  {
    hide *;
    ApprovedVersionsAreSorted(ThreeVersions(), "model");
    AllThreeAreCandidates();
  }

  /** From there a rollback puts the second version into production beside the first. */
  lemma RollbackCanLeaveTwoLive()
    ensures var ops := Registrations() + Promotions() + [RollBack("model", 1.0)];
            AllFresh(ops) && !AtMostOneLive(Run(ops), "model")
  {
    hide *;
    var ops := Registrations() + Promotions();
    ThreeVersionsAreReached();
    RunKeepsInv(ops);
    ThreeAreApproved();
    RolledBackThree();
    RollbackNext(ThreeVersions(), "model", 1.0);
    RunAppend(ops, RollBack("model", 1.0));
  }

  lemma RolledBackThree()
    requires ApprovedVersions(ThreeVersions(), "model") == ThreeVersions()
    ensures CanRollback(ThreeVersions(), "model")
    ensures !AtMostOneLive(Rollback(ThreeVersions(), "model", 1.0), "model")
  {
    hide ApprovedVersions, GoodMetrics;
    var after := Rollback(ThreeVersions(), "model", 1.0);
    assert Live(after[0], "model") && Live(after[1], "model");
  }

  lemma AllThreeAreCandidates()
    ensures Candidates(ThreeVersions(), "model") == ThreeVersions()
  {
    hide GoodMetrics;
    var models, p := ThreeVersions(), (m: Model) => m.name == "model" && m.status == Approved;
    FilterAppend(p, [], models[0]);
    FilterAppend(p, [models[0]], models[1]);
    FilterAppend(p, [models[0], models[1]], models[2]);
    assert [] + [models[0]] == [models[0]];
    assert [models[0]] + [models[1]] == [models[0], models[1]];
    assert [models[0], models[1]] + [models[2]] == models;
  }

  /** With one model in production, that is the one `get_production_model` returns. */
  lemma ProductionModelIsTheLiveOne(models: seq<Model>, name: string)
    requires Inv(models) && AtMostOneLive(models, name)
    ensures forall m :: ProductionModel(models, name) == Some(m) <==> m in models && Live(m, name)
  {
    var p := (m: Model) => m.name == name && m.stage == Production && m.status == Approved;
    var live := Sort(Filter(p, models), VersionKey);
    FilterMembers(p, models);
    SortMembers(Filter(p, models), VersionKey);
    hide PassesGates;
    assert forall m :: m in live <==> m in models && Live(m, name);
    if live != [] {
      var last := live[|live| - 1];
      assert last in live;
      forall m | m in models && Live(m, name) ensures m == last {
        var i := IndexOfModel(models, m);
        var j := IndexOfModel(models, last);
        assert i == j;
      }
    }
  }

  // ---------- two rollbacks in a row ----------

  /** Rollback always picks the two newest approved versions, so a second one changes no stage. */
  lemma SecondRollbackChangesNoStage(models: seq<Model>, name: string, now: real, later: real)
    requires Inv(models) && CanRollback(models, name)
    ensures var once := Rollback(models, name, now);
            && CanRollback(once, name)
            && (var twice := Rollback(once, name, later);
                forall i :: 0 <= i < |models| ==>
                  twice[i].stage == once[i].stage && twice[i].status == once[i].status)
  {
    hide Versioned, DistinctIds, ModelsOk, PassesGates;
    var once := Rollback(models, name, now);
    SecondRollbackPicksTheSame(models, name, now);
    CurrentAndPreviousDiffer(models, name);
    hide ApprovedVersions, Current, Previous;
  }

  /** Rolling back the registry rolls back each candidate in place, and adds or drops none. */
  lemma CandidatesRollBackInPlace(models: seq<Model>, name: string, now: real)
    requires Inv(models) && CanRollback(models, name)
    ensures ApprovedVersions(Rollback(models, name, now), name)
              == RolledBackAll(ApprovedVersions(models, name), Current(models, name).id, Previous(models, name).id, now)
  {
    var current, previous := Current(models, name).id, Previous(models, name).id;
    RollbackKeepsInv(models, name, now);
    ApprovedVersionsAreSorted(models, name);
    ApprovedVersionsAreSorted(Rollback(models, name, now), name);
    assert Rollback(models, name, now) == RolledBackAll(models, current, previous, now);
    hide *;
    CandidatesCommute(models, name, current, previous, now);
  }

  lemma CandidatesCommute(models: seq<Model>, name: string, current: string, previous: string, now: real)
    ensures Candidates(RolledBackAll(models, current, previous, now), name)
              == RolledBackAll(Candidates(models, name), current, previous, now)
  {
    FilterMap((m: Model) => m.name == name && m.status == Approved,
              (m: Model) => RolledBackModel(m, current, previous, now), models);
  }

  function RolledBackAll(models: seq<Model>, current: string, previous: string, now: real): (r: seq<Model>)
    ensures |r| == |models|
    ensures forall i :: 0 <= i < |models| ==> r[i].id == models[i].id
  {
    Map((m: Model) => RolledBackModel(m, current, previous, now), models)
  }

  lemma SecondRollbackPicksTheSame(models: seq<Model>, name: string, now: real)
    requires Inv(models) && CanRollback(models, name)
    ensures var once := Rollback(models, name, now);
            && CanRollback(once, name)
            && Current(once, name).id == Current(models, name).id && Previous(once, name).id == Previous(models, name).id
  {
    hide Inv, ApprovedVersions, Rollback, RolledBackAll;
    CandidatesRollBackInPlace(models, name, now);
  }
}
