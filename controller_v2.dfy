/**
 * The v2 controller of pkg/controller/istiocontrolplane/
 * istiocontrolplane_controllerv2.go: `handleDeleted`, which keeps the
 * operator's finalizer on a live instance, deletes the resources of an
 * instance being deleted and then strips the finalizer (retrying on write
 * conflicts), and `Reconcile`, which fetches the requested instance and
 * reconciles it.
 *
 * The client is the oracle of module KubeClient; the helm reconciler the
 * factory builds is the oracle of module ManifestReconciler, and the
 * factory itself is represented by its answer.
 */
module ControllerV2 {
  import opened Wrappers
  import opened Errors
  import opened IstioApi
  import opened KubeClient
  import opened ManifestReconciler

  /** The finalizer the operator puts on every instance it manages. */
  const Finalizer: string := "istio-finalizer.install.istio.io"

  /** How many times a conflicting finalizer removal is retried. */
  const MaxRetries: nat := 5

  /** `indexOf`: the first position of `x` in `s`, or -1. */
  function IndexOf(s: seq<string>, x: string): (i: int)
    ensures -1 <= i < |s|
    ensures i < 0 <==> x !in s
    ensures i >= 0 ==> s[i] == x && forall k :: 0 <= k < i ==> s[k] != x
  {
    if s == [] then -1
    else if s[0] == x then 0
    else
      var j := IndexOf(s[1..], x);
      if j < 0 then -1 else j + 1
  }

  /** `append(s[:i], s[i+1:]...)`: `s` without its entry at `i`, the others in order. */
  function RemoveAt(s: seq<string>, i: nat): (r: seq<string>)
    requires i < |s|
    ensures |r| == |s| - 1
  {
    s[..i] + s[i + 1..]
  }

  /** The entries before `i` stay where they are, the later ones move up by one, and `s[i]` is the one lost. */
  lemma RemoveAtSpec(s: seq<string>, i: nat)
    requires i < |s|
    ensures var r := RemoveAt(s, i);
      && (forall k :: 0 <= k < i ==> r[k] == s[k])
      && (forall k :: i <= k < |r| ==> r[k] == s[k + 1])
      && multiset(r) == multiset(s) - multiset{s[i]}
  {
    assert s == s[..i] + [s[i]] + s[i + 1..];
  }

  /** The number of finalizer updates among `calls`. */
  function Updates(calls: seq<ClientCall>): nat
  {
    if calls == [] then 0
    else Updates(calls[..|calls| - 1]) + (if calls[|calls| - 1].UpdateCall? then 1 else 0)
  }

  lemma UpdatesAppend(calls: seq<ClientCall>, x: ClientCall)
    ensures Updates(calls + [x]) == Updates(calls) + (if x.UpdateCall? then 1 else 0)
  {
    assert (calls + [x])[..|calls|] == calls;
  }

  /* ---------------- the finalizer removal loop ---------------- */

  /**
   * Where the removal loop stops: with the last update's answer, or in a
   * panic when a refetched instance no longer carries the finalizer (the
   * slice `finalizers[:-1]`). `finalizers` is the instance's list at that
   * point.
   */
  datatype RetryEnd =
    | Settled(calls: seq<ClientCall>, finalizers: seq<string>, finalizerError: Option<Error>)
    | SlicePanic(calls: seq<ClientCall>, finalizers: seq<string>)

  /** One retry round: the refetch finds the finalizer gone, or it is removed and written again. */
  datatype Round =
    | Gone(fetched: seq<ClientCall>, finalizers: seq<string>)
    | Rewritten(updated: seq<ClientCall>, finalizers: seq<string>)

  /**
   * A retry round after the calls `calls`, on an instance holding `fins`:
   * refetch (a failed fetch leaves the instance as it was), then remove the
   * finalizer at its first position and update, unless it is not there.
   */
  function RetryRound(finalizer: string, c: Client, calls: seq<ClientCall>, fins: seq<string>): (r: Round)
    ensures r.Gone? ==> r.fetched == calls + [GetCall] && finalizer !in r.finalizers
    ensures r.Rewritten? ==> r.updated == calls + [GetCall] + [UpdateCall(r.finalizers)]
  {
    var fetched := calls + [GetCall];
    var got := c.get(fetched);
    var fins1 := if got.Success? then got.value else fins;
    var idx := IndexOf(fins1, finalizer);
    if idx < 0 then Gone(fetched, fins1)
    else
      var fins2 := RemoveAt(fins1, idx);
      Rewritten(fetched + [UpdateCall(fins2)], fins2)
  }

  /**
   * The retry loop of `handleDeleted` from round `retryCount`: while the
   * last update conflicted and fewer than five retries were made, run a
   * round; the slice at -1 panics when the finalizer is gone.
   */
  function RetryRemoval(finalizer: string, c: Client, calls: seq<ClientCall>, fins: seq<string>, lastErr: Option<Error>, retryCount: nat): RetryEnd
    requires retryCount <= MaxRetries
    decreases MaxRetries - retryCount
  {
    if !(IsConflict(lastErr) && retryCount < MaxRetries) then Settled(calls, fins, lastErr)
    else
      match RetryRound(finalizer, c, calls, fins)
      case Gone(fetched, fins1) => SlicePanic(fetched, fins1)
      case Rewritten(updated, fins2) => RetryRemoval(finalizer, c, updated, fins2, c.update(updated), retryCount + 1)
  }

  /** Every fetch in `calls` directly follows an update the client answered with a conflict. */
  ghost predicate FetchesFollowConflicts(c: Client, calls: seq<ClientCall>)
  {
    forall k :: 0 <= k < |calls| && calls[k] == GetCall ==>
      0 < k && calls[k - 1].UpdateCall? && IsConflict(c.update(calls[..k]))
  }

  /** One step of the loop: a round, then a panic when the finalizer was gone, or the next round's loop. */
  lemma RetryRemovalStep(finalizer: string, c: Client, calls: seq<ClientCall>, fins: seq<string>, lastErr: Option<Error>, retryCount: nat)
    requires retryCount < MaxRetries && IsConflict(lastErr)
    ensures var round := RetryRound(finalizer, c, calls, fins);
      && (round.Gone? ==> RetryRemoval(finalizer, c, calls, fins, lastErr, retryCount) == SlicePanic(round.fetched, round.finalizers))
      && (round.Rewritten? ==> RetryRemoval(finalizer, c, calls, fins, lastErr, retryCount)
                               == RetryRemoval(finalizer, c, round.updated, round.finalizers, c.update(round.updated), retryCount + 1))
  {
  }

  /** The loop only extends the call log. */
  lemma {:induction false} RetryRemovalExtends(finalizer: string, c: Client, calls: seq<ClientCall>, fins: seq<string>, lastErr: Option<Error>, retryCount: nat)
    requires retryCount <= MaxRetries
    ensures calls <= RetryRemoval(finalizer, c, calls, fins, lastErr, retryCount).calls
    decreases MaxRetries - retryCount
  {
    if IsConflict(lastErr) && retryCount < MaxRetries {
      var round := RetryRound(finalizer, c, calls, fins);
      if round.Rewritten? {
        RetryRemovalExtends(finalizer, c, round.updated, round.finalizers, c.update(round.updated), retryCount + 1);
      }
    }
  }

  /** The loop makes at most one update per remaining retry. */
  lemma {:induction false} RetryRemovalGrows(finalizer: string, c: Client, calls: seq<ClientCall>, fins: seq<string>, lastErr: Option<Error>, retryCount: nat)
    requires retryCount <= MaxRetries
    ensures Updates(RetryRemoval(finalizer, c, calls, fins, lastErr, retryCount).calls) <= Updates(calls) + (MaxRetries - retryCount)
    decreases MaxRetries - retryCount
  {
    if IsConflict(lastErr) && retryCount < MaxRetries {
      RetryRemovalStep(finalizer, c, calls, fins, lastErr, retryCount);
      var round := RetryRound(finalizer, c, calls, fins);
      UpdatesAppend(calls, GetCall);
      if round.Rewritten? {
        var updated := round.updated;
        UpdatesAppend(calls + [GetCall], UpdateCall(round.finalizers));
        RetryRemovalGrows(finalizer, c, updated, round.finalizers, c.update(updated), retryCount + 1);
      }
    }
  }

  /**
   * When the loop settles, the answer it reports is the last update's, and
   * that is no conflict unless all remaining retries were used.
   */
  lemma {:induction false} RetryRemovalSettles(finalizer: string, c: Client, calls: seq<ClientCall>, fins: seq<string>, lastErr: Option<Error>, retryCount: nat)
    requires retryCount <= MaxRetries
    requires calls != [] && lastErr == c.update(calls)
    ensures var r := RetryRemoval(finalizer, c, calls, fins, lastErr, retryCount);
      r.Settled? ==>
        && r.calls != [] && r.finalizerError == c.update(r.calls)
        && (!IsConflict(r.finalizerError) || Updates(r.calls) == Updates(calls) + (MaxRetries - retryCount))
    decreases MaxRetries - retryCount
  {
    if IsConflict(lastErr) && retryCount < MaxRetries {
      var round := RetryRound(finalizer, c, calls, fins);
      if round.Rewritten? {
        var updated := round.updated;
        UpdatesAppend(calls, GetCall);
        UpdatesAppend(calls + [GetCall], UpdateCall(round.finalizers));
        RetryRemovalSettles(finalizer, c, updated, round.finalizers, c.update(updated), retryCount + 1);
      }
    }
  }

  /** One round after a conflicting update fetches right after it, and its own update ends the log. */
  lemma RoundFollowsConflict(finalizer: string, c: Client, calls: seq<ClientCall>, fins: seq<string>)
    requires calls != [] && calls[|calls| - 1].UpdateCall? && IsConflict(c.update(calls))
    requires FetchesFollowConflicts(c, calls)
    ensures FetchesFollowConflicts(c, calls + [GetCall])
    ensures var round := RetryRound(finalizer, c, calls, fins);
      round.Rewritten? ==> FetchesFollowConflicts(c, round.updated) && round.updated[|round.updated| - 1].UpdateCall?
  {
    var fetched := calls + [GetCall];
    assert fetched[..|calls|] == calls;
    forall k | 0 <= k < |fetched| && fetched[k] == GetCall
      ensures 0 < k && fetched[k - 1].UpdateCall? && IsConflict(c.update(fetched[..k]))
    {
      if k < |calls| {
        assert fetched[..k] == calls[..k];
      }
    }
    var round := RetryRound(finalizer, c, calls, fins);
    if round.Rewritten? {
      var updated := round.updated;
      forall k | 0 <= k < |updated| && updated[k] == GetCall
        ensures 0 < k && updated[k - 1].UpdateCall? && IsConflict(c.update(updated[..k]))
      {
        assert updated[..k] == fetched[..k];
      }
    }
  }

  /** A retry is made only right after an update the client refused with a conflict. */
  lemma {:induction false} RetryOnlyAfterConflict(finalizer: string, c: Client, calls: seq<ClientCall>, fins: seq<string>, lastErr: Option<Error>, retryCount: nat)
    requires retryCount <= MaxRetries
    requires calls != [] && calls[|calls| - 1].UpdateCall? && lastErr == c.update(calls)
    requires FetchesFollowConflicts(c, calls)
    ensures FetchesFollowConflicts(c, RetryRemoval(finalizer, c, calls, fins, lastErr, retryCount).calls)
    decreases MaxRetries - retryCount
  {
    var r := RetryRemoval(finalizer, c, calls, fins, lastErr, retryCount);
    if IsConflict(lastErr) && retryCount < MaxRetries {
      RoundFollowsConflict(finalizer, c, calls, fins);
      RetryRemovalStep(finalizer, c, calls, fins, lastErr, retryCount);
      var round := RetryRound(finalizer, c, calls, fins);
      if round.Rewritten? {
        RetryOnlyAfterConflict(finalizer, c, round.updated, round.finalizers, c.update(round.updated), retryCount + 1);
        assert r == RetryRemoval(finalizer, c, round.updated, round.finalizers, c.update(round.updated), retryCount + 1);
      } else {
        assert r.calls == calls + [GetCall];
      }
    } else {
      assert r.calls == calls;
    }
  }

  /* ---------------- handleDeleted ---------------- */

  /** How `handleDeleted` ends: with the error it returns, or in a runtime panic. */
  datatype Outcome = Returned(err: Option<Error>) | Panicked

  /**
   * One call of `handleDeleted` on an instance: its outcome, the client
   * calls made, the helm reconciler calls made, and the instance's
   * finalizers afterwards.
   */
  datatype Handled = Handled(outcome: Outcome, clientCalls: seq<ClientCall>, helmCalls: History, finalizers: seq<string>)

  /** `reconciler.Delete()` when the factory built one; the factory's error otherwise. */
  function HelmDelete(factory: Result<HelmReconciler, Error>): (r: (History, Option<Error>))
    ensures factory.Failure? ==> r == ([], Some(factory.error))
  {
    if factory.Success? then ([Event.Delete], factory.value.delete([Event.Delete]))
    else ([], Some(factory.error))
  }

  /** `reconciler.Reconcile()` when the factory built one; the factory's error otherwise. */
  function HelmReconcile(factory: Result<HelmReconciler, Error>): (r: (History, Option<Error>))
    ensures factory.Failure? ==> r == ([], Some(factory.error))
  {
    if factory.Success? then ReconcileRun(factory.value) else ([], Some(factory.error))
  }

  /**
   * `handleDeleted` on an instance with the given deletion flag and
   * finalizers. Deleted and without the finalizer: nothing to do. Deleted
   * with it: delete the resources, whatever the factory answered, then
   * remove the finalizer and retry on conflicts; the error returned is the
   * factory's or the deletion's, never the finalizer update's. Live without
   * it: add it and return the update's answer. Live with it: reconcile.
   */
  function HandleDeletedRun(finalizer: string, deleted: bool, fins: seq<string>, c: Client, factory: Result<HelmReconciler, Error>): Handled
  {
    var idx := IndexOf(fins, finalizer);
    if deleted then
      if idx < 0 then Handled(Returned(None), [], [], fins)
      else
        var (helmCalls, err) := HelmDelete(factory);
        var fins1 := RemoveAt(fins, idx);
        var calls := [UpdateCall(fins1)];
        match RetryRemoval(finalizer, c, calls, fins1, c.update(calls), 0)
        case Settled(calls', fins', _) => Handled(Returned(err), calls', helmCalls, fins')
        case SlicePanic(calls', fins') => Handled(Panicked, calls', helmCalls, fins')
    else if idx < 0 then
      var fins1 := fins + [finalizer];
      Handled(Returned(c.update([UpdateCall(fins1)])), [UpdateCall(fins1)], [], fins1)
    else
      var (helmCalls, err) := HelmReconcile(factory);
      Handled(Returned(err), [], helmCalls, fins)
  }

  /**
   * `handleDeleted`. The type assertion that yields `instance` is not
   * checked, so an object of another type is a nil instance and panics at
   * its first use. The instance's finalizers are updated in place.
   */
  method HandleDeleted(instance: IstioControlPlane?, c: Client, factory: Result<HelmReconciler, Error>)
    returns (outcome: Outcome, clientCalls: seq<ClientCall>, helmCalls: History)
    modifies instance
    ensures instance == null ==> outcome == Panicked && clientCalls == [] && helmCalls == []
    ensures instance != null ==>
      var run := HandleDeletedRun(Finalizer, old(instance.deleted), old(instance.finalizers), c, factory);
      && outcome == run.outcome && clientCalls == run.clientCalls && helmCalls == run.helmCalls
      && instance.finalizers == run.finalizers
      && instance.deleted == old(instance.deleted)
      && instance.defaultNamespace == old(instance.defaultNamespace)
      && instance.status == old(instance.status)
  {
    clientCalls, helmCalls := [], [];
    if instance == null {
      return Panicked, clientCalls, helmCalls;
    }
    var deleted := instance.deleted;
    var finalizers := instance.finalizers;
    var finalizerIndex := IndexOf(finalizers, Finalizer);
    if deleted {
      if finalizerIndex < 0 {
        return Returned(None), clientCalls, helmCalls;
      }
      var err: Option<Error>;
      if factory.Success? {
        var reconciler := new ISCPReconciler(factory.value);
        err, helmCalls := reconciler.Delete();
      } else {
        err := Some(factory.error);
      }
      finalizers := RemoveAt(finalizers, finalizerIndex);
      instance.finalizers := finalizers;
      clientCalls := [UpdateCall(finalizers)];
      var finalizerError := c.update(clientCalls);
      var end := RemoveFinalizer(Finalizer, c, clientCalls, finalizers, finalizerError);
      instance.finalizers := end.finalizers;
      clientCalls := end.calls;
      if end.SlicePanic? {
        return Panicked, clientCalls, helmCalls;
      }
      return Returned(err), clientCalls, helmCalls;
    } else if finalizerIndex < 0 {
      finalizers := finalizers + [Finalizer];
      instance.finalizers := finalizers;
      clientCalls := [UpdateCall(finalizers)];
      var err := c.update(clientCalls);
      return Returned(err), clientCalls, helmCalls;
    }
    var err: Option<Error>;
    if factory.Success? {
      var reconciler := new ISCPReconciler(factory.value);
      err, helmCalls := reconciler.Reconcile();
    } else {
      err := Some(factory.error);
    }
    return Returned(err), clientCalls, helmCalls;
  }

  /**
   * The retry loop of `handleDeleted`, after the update `calls` ends with
   * wrote `fins` and was answered with `finalizerError`: one round (refetch,
   * find, remove, update) per conflict, at most five. The instance's
   * finalizers are carried in `finalizers` and returned in `end`.
   */
  method RemoveFinalizer(finalizer: string, c: Client, calls: seq<ClientCall>, fins: seq<string>, finalizerError: Option<Error>)
    returns (end: RetryEnd)
    ensures end == RetryRemoval(finalizer, c, calls, fins, finalizerError, 0)
  {
    var clientCalls := calls;
    var finalizers := fins;
    var lastErr := finalizerError;
    var retryCount := 0;
    while IsConflict(lastErr) && retryCount < MaxRetries
      invariant retryCount <= MaxRetries
      invariant RetryRemoval(finalizer, c, clientCalls, finalizers, lastErr, retryCount)
                == RetryRemoval(finalizer, c, calls, fins, finalizerError, 0)
      decreases MaxRetries - retryCount
    {
      var round := RetryRound(finalizer, c, clientCalls, finalizers);
      if round.Gone? {
        return SlicePanic(round.fetched, round.finalizers);
      }
      clientCalls, finalizers := round.updated, round.finalizers;
      lastErr := c.update(clientCalls);
      retryCount := retryCount + 1;
    }
    return Settled(clientCalls, finalizers, lastErr);
  }

  /* ---------------- what handleDeleted does ---------------- */

  /** A deleted instance without the finalizer is left alone: no call at all, nil returned. */
  lemma DeletedWithoutFinalizerIsDone(finalizer: string, fins: seq<string>, c: Client, factory: Result<HelmReconciler, Error>)
    requires finalizer !in fins
    ensures HandleDeletedRun(finalizer, true, fins, c, factory) == Handled(Returned(None), [], [], fins)
  {
  }

  /**
   * A live instance without the finalizer gets it, appended after the
   * others, in one update whose answer is returned; nothing is reconciled.
   */
  lemma LiveWithoutFinalizerGetsIt(finalizer: string, fins: seq<string>, c: Client, factory: Result<HelmReconciler, Error>)
    requires finalizer !in fins
    ensures var run := HandleDeletedRun(finalizer, false, fins, c, factory);
      && run.clientCalls == [UpdateCall(fins + [finalizer])]
      && run.outcome == Returned(c.update(run.clientCalls))
      && run.helmCalls == []
      && multiset(run.finalizers) == multiset(fins) + multiset{finalizer}
  {
  }

  /** A live instance with the finalizer is reconciled, and its finalizers are not written. */
  lemma LiveWithFinalizerReconciles(finalizer: string, fins: seq<string>, c: Client, h: HelmReconciler)
    requires finalizer in fins
    ensures var run := HandleDeletedRun(finalizer, false, fins, c, Success(h));
      && run.clientCalls == [] && run.finalizers == fins
      && run.helmCalls == ReconcileRun(h).0 && run.outcome == Returned(ReconcileRun(h).1)
  {
  }

  /**
   * Deleting an instance that carries the finalizer: the resources are
   * deleted when the factory built a reconciler; the first write removes
   * exactly one copy of the finalizer and keeps the other finalizers; at
   * most six updates are made; every refetch follows a conflict; and
   * unless it panics the call returns the deletion's (or the factory's)
   * error, whatever became of the finalizer updates.
   */
  lemma DeletionRemovesFinalizer(finalizer: string, fins: seq<string>, c: Client, factory: Result<HelmReconciler, Error>)
    requires finalizer in fins
    ensures var run := HandleDeletedRun(finalizer, true, fins, c, factory);
      && run.clientCalls != [] && run.clientCalls[0].UpdateCall?
      && multiset(run.clientCalls[0].finalizers) == multiset(fins) - multiset{finalizer}
      && Updates(run.clientCalls) <= 1 + MaxRetries
      && FetchesFollowConflicts(c, run.clientCalls)
      && run.helmCalls == HelmDelete(factory).0
      && (run.outcome.Returned? ==> run.outcome.err == HelmDelete(factory).1)
  {
    var idx := IndexOf(fins, finalizer);
    var fins1 := RemoveAt(fins, idx);
    RemoveAtSpec(fins, idx);
    var calls := [UpdateCall(fins1)];
    assert Updates(calls) == 1 by {
      assert calls[..0] == [];
    }
    RetryRemovalExtends(finalizer, c, calls, fins1, c.update(calls), 0);
    RetryRemovalGrows(finalizer, c, calls, fins1, c.update(calls), 0);
    RetryOnlyAfterConflict(finalizer, c, calls, fins1, c.update(calls), 0);
  }

  /**
   * When the deletion path does not panic, the finalizer removal stopped
   * because an update was not refused with a conflict or because all five
   * retries were spent.
   */
  lemma RemovalStopsOnSuccessOrRetriesSpent(finalizer: string, fins: seq<string>, c: Client, factory: Result<HelmReconciler, Error>)
    requires finalizer in fins
    requires HandleDeletedRun(finalizer, true, fins, c, factory).outcome.Returned?
    ensures var calls := HandleDeletedRun(finalizer, true, fins, c, factory).clientCalls;
      calls != [] && (!IsConflict(c.update(calls)) || Updates(calls) == 1 + MaxRetries)
  {
    var idx := IndexOf(fins, finalizer);
    var fins1 := RemoveAt(fins, idx);
    var calls := [UpdateCall(fins1)];
    assert Updates(calls) == 1 by {
      assert calls[..0] == [];
    }
    RetryRemovalSettles(finalizer, c, calls, fins1, c.update(calls), 0);
  }

  /* ---------------- Reconcile ---------------- */

  /**
   * `Reconcile` for one request: a fetch that finds nothing is done (nil),
   * another fetch error is returned, and a fetched instance is reconciled
   * with the factory's reconciler.
   */
  function ReconcileRequest(c: Client, factory: Result<HelmReconciler, Error>): (Option<Error>, seq<ClientCall>, History)
  {
    var got := c.get([GetCall]);
    if got.Failure? then
      (if IsNotFound(got.error) then None else Some(got.error), [GetCall], [])
    else
      var (helmCalls, err) := HelmReconcile(factory);
      (err, [GetCall], helmCalls)
  }

  /** `ReconcileIstioControlPlaneV2`: the client it reads and writes through and its factory. */
  class ReconcileIstioControlPlaneV2 {
    const client: Client
    const factory: Result<HelmReconciler, Error>

    /** `newReconcilerV2`. */
    constructor (client: Client, factory: Result<HelmReconciler, Error>)
      ensures this.client == client && this.factory == factory
    {
      this.client := client;
      this.factory := factory;
    }

    /** `Reconcile`: fetch the requested instance, then reconcile it. */
    method Reconcile() returns (err: Option<Error>, clientCalls: seq<ClientCall>, helmCalls: History)
      ensures (err, clientCalls, helmCalls) == ReconcileRequest(client, factory)
    {
      clientCalls := [GetCall];
      helmCalls := [];
      var got := client.get(clientCalls);
      if got.Failure? {
        if IsNotFound(got.error) {
          return None, clientCalls, helmCalls;
        }
        return Some(got.error), clientCalls, helmCalls;
      }
      if factory.Success? {
        var reconciler := new ISCPReconciler(factory.value);
        err, helmCalls := reconciler.Reconcile();
      } else {
        err := Some(factory.error);
      }
    }
  }

  /**
   * A request for an instance that no longer exists ends quietly, and any
   * other fetch error is handed back for a requeue; neither reaches the
   * helm reconciler.
   */
  lemma FetchFailureIsNotReconciled(c: Client, factory: Result<HelmReconciler, Error>)
    requires c.get([GetCall]).Failure?
    ensures var (err, _, helmCalls) := ReconcileRequest(c, factory);
      && helmCalls == []
      && (err.None? <==> IsNotFound(c.get([GetCall]).error))
      && (err.Some? ==> err.value == c.get([GetCall]).error)
  {
  }

  /**
   * `Reconcile` fetches once and never writes through the client: the
   * finalizer is neither added nor removed, whatever the instance's state,
   * since `handleDeleted` is not called from it.
   */
  lemma ReconcileNeverTouchesFinalizers(c: Client, factory: Result<HelmReconciler, Error>)
    ensures ReconcileRequest(c, factory).1 == [GetCall]
    ensures Updates(ReconcileRequest(c, factory).1) == 0
  {
    assert [GetCall][..0] == [];
  }

  /** A fetched instance is reconciled, and the pass's error is returned as is. */
  lemma FetchedInstanceIsReconciled(c: Client, h: HelmReconciler)
    requires c.get([GetCall]).Success?
    ensures ReconcileRequest(c, Success(h)) == (ReconcileRun(h).1, [GetCall], ReconcileRun(h).0)
  {
  }

  /* ---------------- the refetch panic and its correction ---------------- */

  /**
   * The removal loop as evidently intended: a refetched instance that no
   * longer carries the finalizer needs no further write, so the loop stops
   * there with nil instead of slicing at -1.
   */
  function RetryRemovalFixed(finalizer: string, c: Client, calls: seq<ClientCall>, fins: seq<string>, lastErr: Option<Error>, retryCount: nat): RetryEnd
    requires retryCount <= MaxRetries
    decreases MaxRetries - retryCount
  {
    if !(IsConflict(lastErr) && retryCount < MaxRetries) then Settled(calls, fins, lastErr)
    else
      match RetryRound(finalizer, c, calls, fins)
      case Gone(fetched, fins1) => Settled(fetched, fins1, None)
      case Rewritten(updated, fins2) => RetryRemovalFixed(finalizer, c, updated, fins2, c.update(updated), retryCount + 1)
  }

  /**
   * A client that refuses every update with a conflict and fails every
   * fetch: the instance keeps the list it was given, from which the
   * finalizer was just removed.
   */
  function StaleClient(): Client
  {
    Client(
      (calls: seq<ClientCall>) => Failure(Message("unavailable")),
      (calls: seq<ClientCall>) => Some(Conflict("stale")),
      (calls: seq<ClientCall>) => None)
  }

  /**
   * As written, deleting an instance whose only finalizer is the operator's
   * panics when the first update conflicts and the refetch fails: the
   * instance no longer holds the finalizer, and the list is sliced at -1.
   */
  lemma AsWrittenPanicsWhenRefetchFails(finalizer: string, h: HelmReconciler)
    ensures HandleDeletedRun(finalizer, true, [finalizer], StaleClient(), Success(h)).outcome == Panicked
  {
    var c := StaleClient();
    assert IndexOf([finalizer], finalizer) == 0;
    var fins1 := RemoveAt([finalizer], 0);
    assert fins1 == [];
    var calls := [UpdateCall(fins1)];
    assert IsConflict(c.update(calls));
    assert RetryRemoval(finalizer, c, calls, fins1, c.update(calls), 0) == SlicePanic(calls + [GetCall], []);
  }

  /** The corrected loop never panics: it always settles with an update's answer or with nil. */
  lemma {:induction false} FixedNeverPanics(finalizer: string, c: Client, calls: seq<ClientCall>, fins: seq<string>, lastErr: Option<Error>, retryCount: nat)
    requires retryCount <= MaxRetries
    ensures RetryRemovalFixed(finalizer, c, calls, fins, lastErr, retryCount).Settled?
    decreases MaxRetries - retryCount
  {
    if IsConflict(lastErr) && retryCount < MaxRetries {
      var round := RetryRound(finalizer, c, calls, fins);
      if round.Rewritten? {
        FixedNeverPanics(finalizer, c, round.updated, round.finalizers, c.update(round.updated), retryCount + 1);
      }
    }
  }

  /**
   * The correction changes nothing else: wherever the loop as written does
   * not panic, the corrected loop ends exactly as it does; where it panics,
   * the corrected loop stops at the same fetch with the refetched list.
   */
  lemma {:induction false} FixedAgreesUnlessPanic(finalizer: string, c: Client, calls: seq<ClientCall>, fins: seq<string>, lastErr: Option<Error>, retryCount: nat)
    requires retryCount <= MaxRetries
    ensures var asWritten := RetryRemoval(finalizer, c, calls, fins, lastErr, retryCount);
      var fixed := RetryRemovalFixed(finalizer, c, calls, fins, lastErr, retryCount);
      && (asWritten.Settled? ==> fixed == asWritten)
      && (asWritten.SlicePanic? ==> fixed == Settled(asWritten.calls, asWritten.finalizers, None))
    decreases MaxRetries - retryCount
  {
    if IsConflict(lastErr) && retryCount < MaxRetries {
      var round := RetryRound(finalizer, c, calls, fins);
      if round.Rewritten? {
        FixedAgreesUnlessPanic(finalizer, c, round.updated, round.finalizers, c.update(round.updated), retryCount + 1);
      }
    }
  }
}
