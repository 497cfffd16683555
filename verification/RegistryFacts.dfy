/** The thresholds of the gates, and what each operation records. */
module RegistryFacts {
  import opened Sequences
  import opened ModelRegistry
  import opened RegistryLaws

  function AllMetrics(sharpe: real, drawdown: real, winRate: real, inSample: real, outSample: real, trades: real): Metrics {
    map["sharpe" := sharpe, "max_drawdown" := drawdown, "win_rate" := winRate,
        "in_sample_sharpe" := inSample, "out_sample_sharpe" := outSample, "trades" := trades]
  }

  /** A model whose metrics are all given can be promoted exactly when it clears the five thresholds. */
  lemma GatesAreThresholds(
    models: seq<Model>, id: string, sharpe: real, drawdown: real, winRate: real, inSample: real, outSample: real, trades: real)
    requires exists m :: m in models && m.id == id
    requires forall m :: m in models && m.id == id ==>
               m.metrics == AllMetrics(sharpe, drawdown, winRate, inSample, outSample, trades)
    ensures Promotable(models, id) <==>
              (&& 2.0 * sharpe > 3.0 && 4.0 * drawdown < 1.0 && 20.0 * winRate > 11.0
               && inSample > 0.0 && 10.0 * outSample > 7.0 * inSample && trades >= 100.0)
  {
    var m :| m in models && m.id == id;
    var k :| 0 <= k < |models| && models[k] == m;
    assert IndexOf(models, id) <= k;
    assert models[IndexOf(models, id)] in models;
    WholeTrades(trades);
    hide IndexOf, Truncate;
  }

  lemma WholeTrades(trades: real)
    ensures Truncate(trades) >= 100 <==> trades >= 100.0
  {
  }

  /** A missing metric never helps: without any one of the six, a model is not promoted. */
  lemma MissingMetricRefuses(models: seq<Model>, id: string, missing: string)
    requires missing in {"sharpe", "max_drawdown", "win_rate", "in_sample_sharpe", "out_sample_sharpe", "trades"}
    requires forall m :: m in models && m.id == id ==> missing !in m.metrics
    ensures !Promotable(models, id)
  {
    if IndexOf(models, id) < |models| {
      var m := models[IndexOf(models, id)];
      assert m in models && missing !in m.metrics;
    }
  }

  /** In a registry with distinct ids, where the model with this id stands. */
  lemma PlaceOf(models: seq<Model>, i: nat)
    requires DistinctIds(models) && i < |models|
    ensures IndexOf(models, models[i].id) == i
  {
  }

  /** Staging records the stage, the approval, its time and its author, and touches no other model. */
  lemma StagingRecords(models: seq<Model>, i: nat, who: string, now: real)
    requires DistinctIds(models) && i < |models| && Promotable(models, models[i].id)
    ensures Stage_(models, models[i].id, who, now)
              == models[i := models[i].(stage := Staging, status := Approved, approvedAt := Some(now), approvedBy := Some(who))]
  {
    PlaceOf(models, i);
    hide PassesGates;
  }

  /** Promotion records deployment and approval, archives what was live under the name, and touches nothing else. */
  lemma PromotionRecords(models: seq<Model>, i: nat, who: string, now: real)
    requires DistinctIds(models) && i < |models| && Promotable(models, models[i].id)
    ensures var after := Deploy(models, models[i].id, who, now);
            && |after| == |models|
            && after[i] == models[i].(stage := Production, status := Approved, deployedAt := Some(now),
                                      deployedBy := Some(who), approvedAt := Some(now), approvedBy := Some(who))
            && forall k :: 0 <= k < |models| && k != i ==>
                 after[k] == if models[k].name == models[i].name && models[k].stage == Production
                             then models[k].(stage := Archived) else models[k]
  {
    PlaceOf(models, i);
    hide PassesGates, IndexOf;
  }

  /** A model that fails a gate is neither staged nor deployed. */
  lemma RefusalChangesNothing(models: seq<Model>, id: string, who: string, now: real)
    requires !Promotable(models, id)
    ensures Stage_(models, id, who, now) == models && Deploy(models, id, who, now) == models
  {
  }

  /** A rollback changes two stages and one deployment time. */
  lemma RollbackRecords(models: seq<Model>, name: string, now: real) returns (p: nat, c: nat)
    requires Inv(models) && CanRollback(models, name)
    ensures p < |models| && c < |models| && p != c
    ensures models[p] == Previous(models, name) && models[c] == Current(models, name)
    ensures Rollback(models, name, now)
              == models[p := models[p].(stage := Production, deployedAt := Some(now))][c := models[c].(stage := Archived)]
  {
    hide Inv, ApprovedVersions, CanRollback, Current, Previous, Live;
    CurrentAndPreviousDiffer(models, name);
    p, c := RolledBackPair(models, name, now);
  }

  /** A rejection records status, stage, time, and who gave which reason; a new model records nothing yet. */
  lemma RejectionRecords(models: seq<Model>, i: nat, who: string, reason: string, now: real)
    requires DistinctIds(models) && i < |models|
    ensures Reject(models, models[i].id, who, reason, now)
              == models[i := models[i].(status := Refused, stage := Rejected, rejectedAt := Some(now),
                                        rejectedReason := Some(who + ": " + reason))]
  {
    PlaceOf(models, i);
  }

  lemma RegistrationRecords(models: seq<Model>, id: string, name: string, metrics: Metrics)
    requires Versioned(models)
    ensures NewModel(models, id, name, metrics)
              == Model(id, name, CountName(models, name) + 1, InDevelopment, Development, metrics,
                       None, None, None, None, None, None)
  {
    LatestIsCount(models, name);
  }
}
