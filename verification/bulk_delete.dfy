/**
 * `deleteObjectsWithPrefix` of app.js (lines 160-211): list at most 1000 keys
 * under a prefix, delete them in one batch, and start again while the
 * listing said it was truncated. Each round lists the store afresh, with no
 * continuation token.
 *
 * `Deletion` states, as a function of the store state, what one call does;
 * `DeleteObjectsWithPrefix` is the procedure itself, proved to do exactly
 * that; the lemmas say what `Deletion` guarantees.
 */
module BulkDelete {
  import opened Wrappers
  import opened ObjectStore

  /** What one call does: the argument of each callback invocation in order
      (`None` for `callback()`), and the store afterwards. */
  datatype Outcome = Outcome(callbacks: seq<Option<StoreError>>, store: StoreState)

  /** The keys deleted in a round that is followed by another are fewer keys left under the prefix. */
  lemma TruncatedPageShrinks(objects: seq<Key>, prefix: Key)
    requires ListPage(objects, prefix).isTruncated
    ensures |Under(Without(objects, ListPage(objects, prefix).contents), prefix)| < |Under(objects, prefix)|
  {
    var page := ListPage(objects, prefix).contents;
    UnderWithout(objects, page, prefix);
    WithoutShrinks(Under(objects, prefix), page, page[0]);
  }

  /**
   * One call of deleteObjectsWithPrefix from store state `st`. An empty page
   * calls back with success and then, as there is no `return` after that
   * call (lines 175-177), still sends an empty batch and calls back again.
   */
  function Deletion(st: StoreState, prefix: Key): (r: Outcome)
    ensures 1 <= |r.callbacks| <= 2
    ensures forall j :: 0 <= j < |r.callbacks| - 1 ==> r.callbacks[j].None?
    decreases |Under(st.objects, prefix)|
  {
    var (listed, st1) := ListStep(st, prefix);
    match listed
    case Err(e) => Outcome([Some(e)], st1)
    case Ok(page) =>
      var early: seq<Option<StoreError>> := if page.contents == [] then [None] else [];
      var (err, st2) := DeleteStep(st1, page.contents);
      if err.Some? then Outcome(early + [err], st2)
      else if page.isTruncated then
        TruncatedPageShrinks(st.objects, prefix);
        var rest := Deletion(st2, prefix);
        Outcome(early + rest.callbacks, rest.store)
      else Outcome(early + [None], st2)
  }

  /** Lines 179-188: the batch parameter, one entry pushed per listed key. */
  method CollectKeys(contents: seq<Key>) returns (batch: seq<Key>)
    ensures batch == contents
  {
    batch := [];
    for i := 0 to |contents|
      invariant batch == contents[..i]
    {
      batch := batch + [contents[i]];
    }
  }

  /** deleteObjectsWithPrefix; each callback invocation is returned, in order. */
  method DeleteObjectsWithPrefix(store: Store, prefix: Key) returns (callbacks: seq<Option<StoreError>>)
    modifies store
    ensures Outcome(callbacks, store.State()) == Deletion(old(store.State()), prefix)
    decreases |Under(store.objects, prefix)|
  {
    ghost var before := store.objects;
    var listed := store.ListObjects(prefix);
    if listed.Err? {
      return [Some(listed.error)];
    }
    var data := listed.value;
    callbacks := [];
    if |data.contents| == 0 {
      callbacks := [None];
    }
    var batch := CollectKeys(data.contents);
    var err := store.DeleteObjects(batch);
    if err.Some? {
      return callbacks + [err];
    }
    if data.isTruncated {
      TruncatedPageShrinks(before, prefix);
      var more := DeleteObjectsWithPrefix(store, prefix);
      callbacks := callbacks + more;
    } else {
      callbacks := callbacks + [None];
    }
  }

  // ---------------------------------------------------------------------
  // What a call guarantees

  /** A request that belongs to the deletion of `prefix`: a listing of that
      prefix with MaxKeys 1000, or a batch of at most 1000 keys under it. */
  predicate WithinPrefix(rq: Request, prefix: Key) {
    match rq
    case ListObjects(p, maxKeys) => p == prefix && maxKeys == MaxKeys
    case DeleteObjects(keys) => |keys| <= MaxKeys && forall k :: k in keys ==> prefix <= k
    case _ => false
  }

  /** Every request of `rqs` belongs to the deletion of `prefix`. */
  predicate AllWithin(rqs: seq<Request>, prefix: Key) {
    forall rq :: rq in rqs ==> WithinPrefix(rq, prefix)
  }

  /** Every request a call sends lists the prefix or deletes a batch of at most 1000 keys under it. */
  lemma {:induction false} DeletionStaysInPrefix(st: StoreState, prefix: Key)
    ensures var all := Deletion(st, prefix).store.requests;
      && |st.requests| < |all|
      && st.requests <= all
      && AllWithin(all[|st.requests|..], prefix)
    decreases |Under(st.objects, prefix)|
  {
    var all := Deletion(st, prefix).store.requests;
    if OutcomeAt(st.faults, 0).Some? {
      RoundListingFails(st, prefix);
      SliceAfter(st.requests, [ListObjects(prefix, MaxKeys)], all);
    } else {
      var page := ListPage(st.objects, prefix);
      var st2 := AfterRound(st, prefix);
      var round := [ListObjects(prefix, MaxKeys), DeleteObjects(page.contents)];
      RoundTape(st, prefix);
      ListPageMembers(st.objects, prefix);
      assert WithinPrefix(DeleteObjects(page.contents), prefix);
      assert AllWithin(round, prefix);
      if OutcomeAt(st.faults, 1).None? && page.isTruncated {
        RoundContinues(st, prefix);
        TruncatedPageShrinks(st.objects, prefix);
        DeletionStaysInPrefix(st2, prefix);
      } else {
        RoundEnds(st, prefix);
        assert all == st2.requests;
      }
      WithinAfterRound(st.requests, round, st2.requests, all, prefix);
    }
  }

  /** A round's requests, all within the prefix, followed by later ones that are too. */
  lemma WithinAfterRound(base: seq<Request>, round: seq<Request>, mid: seq<Request>, all: seq<Request>, prefix: Key)
    requires mid == base + round && round != [] && AllWithin(round, prefix)
    requires mid <= all && AllWithin(all[|mid|..], prefix)
    ensures |base| < |all| && base <= all && AllWithin(all[|base|..], prefix)
  {
    SliceAfter(base, round, all);
    forall rq | rq in all[|base|..] ensures WithinPrefix(rq, prefix) {
      assert rq in round + all[|mid|..];
    }
  }

  /** What follows a known beginning of a sequence. */
  lemma SliceAfter<T>(a: seq<T>, b: seq<T>, c: seq<T>)
    requires a + b <= c
    ensures a <= c && c[|a|..] == b + c[|a + b|..]
  {
    assert c == (a + b) + c[|a + b|..];
  }

  /** Keys outside the prefix are never deleted, and no key is added. */
  lemma {:induction false} DeletionKeepsOutside(st: StoreState, prefix: Key)
    ensures var r := Deletion(st, prefix);
      && Outside(r.store.objects, prefix) == Outside(st.objects, prefix)
      && forall k :: k in r.store.objects ==> k in st.objects
    decreases |Under(st.objects, prefix)|
  {
    var (listed, st1) := ListStep(st, prefix);
    if listed.Ok? {
      var page := listed.value;
      var (err, st2) := DeleteStep(st1, page.contents);
      if err.None? {
        ListPageMembers(st.objects, prefix);
        WithoutMembers(st.objects, page.contents);
        OutsideWithout(st.objects, page.contents, prefix);
        if page.isTruncated {
          TruncatedPageShrinks(st.objects, prefix);
          DeletionKeepsOutside(st2, prefix);
        }
      }
    }
  }

  /** When the last callback reports success, no key under the prefix is left. */
  lemma {:induction false} DeletionEmptiesPrefix(st: StoreState, prefix: Key)
    ensures var r := Deletion(st, prefix);
      r.callbacks[|r.callbacks| - 1].None? ==> Under(r.store.objects, prefix) == []
    decreases |Under(st.objects, prefix)|
  {
    var page := ListPage(st.objects, prefix);
    var early: seq<Option<StoreError>> := if page.contents == [] then [None] else [];
    if OutcomeAt(st.faults, 0).Some? {
      RoundListingFails(st, prefix);
    } else if OutcomeAt(st.faults, 1).None? && page.isTruncated {
      RoundContinues(st, prefix);
      TruncatedPageShrinks(st.objects, prefix);
      DeletionEmptiesPrefix(AfterRound(st, prefix), prefix);
    } else {
      RoundEnds(st, prefix);
      LastOfConcat(early, [OutcomeAt(st.faults, 1)]);
      if OutcomeAt(st.faults, 1).None? {
        var under := Under(st.objects, prefix);
        assert AfterRound(st, prefix).objects == Without(st.objects, under);
        UnderWithout(st.objects, under, prefix);
        WithoutAll(under, under);
      }
    }
  }

  /** The tape left after `n` requests have drawn their outcomes from `faults`. */
  function Drop(faults: seq<Option<StoreError>>, n: nat): seq<Option<StoreError>> {
    if n <= |faults| then faults[n..] else []
  }

  /** The outcome of the `j`-th request drawn from tape `faults` (success past its end). */
  function OutcomeAt(faults: seq<Option<StoreError>>, j: nat): Option<StoreError> {
    if j < |faults| then faults[j] else None
  }

  lemma DropDrop(faults: seq<Option<StoreError>>, a: nat, b: nat)
    ensures Drop(Drop(faults, a), b) == Drop(faults, a + b)
  {
    if a + b <= |faults| {
      assert faults[a..][b..] == faults[a + b..];
    }
  }

  lemma OutcomeAfterRound(faults: seq<Option<StoreError>>, j: nat)
    ensures OutcomeAt(faults, j + 2) == OutcomeAt(Drop(faults, 2), j)
  {
  }

  lemma OutcomeAfterRoundAt(faults: seq<Option<StoreError>>, rest: seq<Option<StoreError>>, m: nat, x: Option<StoreError>)
    requires m >= 1 && rest == Drop(faults, 2) && x == OutcomeAt(rest, m - 1)
    ensures x == OutcomeAt(faults, m + 1)
  {
    OutcomeAfterRound(faults, m - 1);
  }

  lemma AppendAssoc<T>(a: seq<T>, b: seq<T>, c: seq<T>)
    ensures (a + b) + c == a + (b + c)
  {
  }

  lemma LastOfConcat<T>(a: seq<T>, b: seq<T>)
    requires b != []
    ensures (a + b)[|a + b| - 1] == b[|b| - 1]
  {
  }

  // One round of a call in terms of the tape: the listing draws the first
  // outcome, the batch the second, and only a truncated page after two
  // successes leads to another round.

  lemma RoundListingFails(st: StoreState, prefix: Key)
    requires OutcomeAt(st.faults, 0).Some?
    ensures var r := Deletion(st, prefix);
      r.callbacks == [OutcomeAt(st.faults, 0)] && r.store.requests == st.requests + [ListObjects(prefix, MaxKeys)]
  {
  }

  /** The store after a round whose listing succeeded. */
  lemma RoundTape(st: StoreState, prefix: Key)
    requires OutcomeAt(st.faults, 0).None?
    ensures var st2 := AfterRound(st, prefix);
      && st2.faults == Drop(st.faults, 2)
      && st2.requests == st.requests + [ListObjects(prefix, MaxKeys), DeleteObjects(ListPage(st.objects, prefix).contents)]
  {
    var st1 := ListStep(st, prefix).1;
    assert st1.faults == Drop(st.faults, 1);
    DropDrop(st.faults, 1, 1);
  }

  lemma RoundEnds(st: StoreState, prefix: Key)
    requires OutcomeAt(st.faults, 0).None?
    requires OutcomeAt(st.faults, 1).Some? || !ListPage(st.objects, prefix).isTruncated
    ensures var early: seq<Option<StoreError>> := if ListPage(st.objects, prefix).contents == [] then [None] else [];
      Deletion(st, prefix) == Outcome(early + [OutcomeAt(st.faults, 1)], AfterRound(st, prefix))
  {
    RoundTape(st, prefix);
    assert ListStep(st, prefix).1.faults == Drop(st.faults, 1);
  }

  lemma RoundContinues(st: StoreState, prefix: Key)
    requires OutcomeAt(st.faults, 0).None? && OutcomeAt(st.faults, 1).None?
    requires ListPage(st.objects, prefix).isTruncated
    ensures Deletion(st, prefix) == Deletion(AfterRound(st, prefix), prefix)
  {
    RoundTape(st, prefix);
    assert ListStep(st, prefix).1.faults == Drop(st.faults, 1);
  }

  /** A call sends at least one request, and each request it sends consumes one outcome of the tape. */
  lemma {:induction false} DeletionConsumesTape(st: StoreState, prefix: Key)
    ensures var r := Deletion(st, prefix);
      && |st.requests| < |r.store.requests|
      && r.store.faults == Drop(st.faults, |r.store.requests| - |st.requests|)
    decreases |Under(st.objects, prefix)|
  {
    if OutcomeAt(st.faults, 0).Some? {
      RoundListingFails(st, prefix);
      assert Deletion(st, prefix).store == ListStep(st, prefix).1;
    } else {
      RoundTape(st, prefix);
      var st2 := AfterRound(st, prefix);
      if OutcomeAt(st.faults, 1).None? && ListPage(st.objects, prefix).isTruncated {
        RoundContinues(st, prefix);
        TruncatedPageShrinks(st.objects, prefix);
        DeletionConsumesTape(st2, prefix);
        DropDrop(st.faults, 2, |Deletion(st2, prefix).store.requests| - |st2.requests|);
      } else {
        RoundEnds(st, prefix);
      }
    }
  }

  /** Every request a call sends before its last one succeeded. */
  lemma {:induction false} DeletionStopsAtFailure(st: StoreState, prefix: Key)
    ensures var n := |Deletion(st, prefix).store.requests| - |st.requests|;
      forall j :: 0 <= j < n - 1 ==> OutcomeAt(st.faults, j).None?
    decreases |Under(st.objects, prefix)|
  {
    if OutcomeAt(st.faults, 0).Some? {
      RoundListingFails(st, prefix);
    } else {
      RoundTape(st, prefix);
      var st2 := AfterRound(st, prefix);
      if OutcomeAt(st.faults, 1).None? && ListPage(st.objects, prefix).isTruncated {
        RoundContinues(st, prefix);
        TruncatedPageShrinks(st.objects, prefix);
        DeletionStopsAtFailure(st2, prefix);
        var m := |Deletion(st2, prefix).store.requests| - |st2.requests|;
        forall j | 2 <= j < m + 1 ensures OutcomeAt(st.faults, j).None? {
          OutcomeAfterRound(st.faults, j - 2);
        }
      } else {
        RoundEnds(st, prefix);
      }
    }
  }

  /**
   * The last callback invocation of `r`, a call from `st`, carries the
   * outcome of the last request it sent.
   */
  predicate ReportsLast(st: StoreState, r: Outcome) {
    var n := |r.store.requests| - |st.requests|;
    n >= 1 && |r.callbacks| >= 1 && r.callbacks[|r.callbacks| - 1] == OutcomeAt(st.faults, n - 1)
  }

  /** The last callback invocation reports an error exactly when the last request sent failed. */
  lemma {:induction false} DeletionReportsLastOutcome(st: StoreState, prefix: Key)
    ensures ReportsLast(st, Deletion(st, prefix))
    decreases |Under(st.objects, prefix)|
  {
    if OutcomeAt(st.faults, 0).None? && OutcomeAt(st.faults, 1).None? && ListPage(st.objects, prefix).isTruncated {
      TruncatedPageShrinks(st.objects, prefix);
      DeletionReportsLastOutcome(AfterRound(st, prefix), prefix);
      ReportsLastAfterRound(st, prefix);
    } else {
      ReportsLastInOneRound(st, prefix);
    }
  }

  lemma ReportsLastInOneRound(st: StoreState, prefix: Key)
    requires !(OutcomeAt(st.faults, 0).None? && OutcomeAt(st.faults, 1).None? && ListPage(st.objects, prefix).isTruncated)
    ensures ReportsLast(st, Deletion(st, prefix))
  {
    var r := Deletion(st, prefix);
    if OutcomeAt(st.faults, 0).Some? {
      RoundListingFails(st, prefix);
    } else {
      var early: seq<Option<StoreError>> := if ListPage(st.objects, prefix).contents == [] then [None] else [];
      RoundTape(st, prefix);
      RoundEnds(st, prefix);
      assert |r.store.requests| - |st.requests| == 2;
      LastOfConcat(early, [OutcomeAt(st.faults, 1)]);
    }
  }

  lemma ReportsLastAfterRound(st: StoreState, prefix: Key)
    requires OutcomeAt(st.faults, 0).None? && OutcomeAt(st.faults, 1).None? && ListPage(st.objects, prefix).isTruncated
    requires ReportsLast(AfterRound(st, prefix), Deletion(AfterRound(st, prefix), prefix))
    ensures ReportsLast(st, Deletion(st, prefix))
  {
    var st2 := AfterRound(st, prefix);
    RoundTape(st, prefix);
    RoundContinues(st, prefix);
    ReportsLastShift(st, st2, Deletion(st2, prefix));
  }

  /** What a call reports after a first round of two successful requests. */
  lemma ReportsLastShift(st: StoreState, st2: StoreState, rest: Outcome)
    requires ReportsLast(st2, rest)
    requires st2.faults == Drop(st.faults, 2) && |st2.requests| == |st.requests| + 2
    ensures ReportsLast(st, rest)
  {
    var m := |rest.store.requests| - |st2.requests|;
    OutcomeAfterRoundAt(st.faults, st2.faults, m, rest.callbacks[|rest.callbacks| - 1]);
  }

  /** The requests of a fault-free run over `under`, the keys under the prefix: one listing and one batch per 1000 keys. */
  function RoundRequests(prefix: Key, under: seq<Key>): (r: seq<Request>)
    decreases |under|
  {
    if |under| <= MaxKeys then [ListObjects(prefix, MaxKeys), DeleteObjects(under)]
    else [ListObjects(prefix, MaxKeys), DeleteObjects(under[..MaxKeys])] + RoundRequests(prefix, under[MaxKeys..])
  }

  /** The store after one round that lists the keys under `prefix` and deletes the page it got. */
  function AfterRound(st: StoreState, prefix: Key): StoreState {
    DeleteStep(ListStep(st, prefix).1, ListPage(st.objects, prefix).contents).1
  }

  /** What a fault-free round does: it lists the first 1000 keys under the prefix and deletes exactly those. */
  lemma FaultFreeRound(st: StoreState, prefix: Key)
    requires NoFaults(st.faults) && Distinct(st.objects)
    ensures var under := Under(st.objects, prefix);
      var st2 := AfterRound(st, prefix);
      && st2.requests == st.requests + [ListObjects(prefix, MaxKeys), DeleteObjects(ListPage(st.objects, prefix).contents)]
      && NoFaults(st2.faults)
      && Distinct(st2.objects)
      && Under(st2.objects, prefix) == (if |under| <= MaxKeys then [] else under[MaxKeys..])
  {
    RoundTape(st, prefix);
    DropNoFaults(st.faults, 2);
    RoundObjects(st, prefix);
    var page := ListPage(st.objects, prefix);
    FaultFreeObjects(st.objects, page.contents, prefix);
  }

  lemma DropNoFaults(faults: seq<Option<StoreError>>, n: nat)
    requires NoFaults(faults)
    ensures NoFaults(Drop(faults, n))
  {
  }

  /** A round whose deletion succeeds leaves the objects without its page. */
  lemma RoundObjects(st: StoreState, prefix: Key)
    requires NoFaults(st.faults)
    ensures AfterRound(st, prefix).objects == Without(st.objects, ListPage(st.objects, prefix).contents)
  {
  }

  /** Removing the listed page from distinct keys: still distinct, and what stays under the prefix is past the page. */
  lemma FaultFreeObjects(objects: seq<Key>, page: seq<Key>, prefix: Key)
    requires Distinct(objects) && page == ListPage(objects, prefix).contents
    ensures var under := Under(objects, prefix);
      && Distinct(Without(objects, page))
      && Under(Without(objects, page), prefix) == (if |under| <= MaxKeys then [] else under[MaxKeys..])
  {
    var under := Under(objects, prefix);
    UnderWithout(objects, page, prefix);
    UnderDistinct(objects, prefix);
    WithoutDistinct(objects, page);
    if |under| > MaxKeys {
      WithoutLeading(under, page, MaxKeys);
    } else {
      WithoutAll(under, page);
    }
  }

  /** With no failing request, a call goes on with another round exactly when more than 1000 keys were under the prefix. */
  lemma FaultFreeContinues(st: StoreState, prefix: Key)
    requires NoFaults(st.faults)
    ensures var under := Under(st.objects, prefix);
      Deletion(st, prefix) ==
        if |under| <= MaxKeys then Outcome(if under == [] then [None, None] else [None], AfterRound(st, prefix))
        else Deletion(AfterRound(st, prefix), prefix)
  {
    var st1 := ListStep(st, prefix).1;
    assert ListStep(st, prefix).0 == Ok(ListPage(st.objects, prefix));
    assert NoFaults(st1.faults);
    assert DeleteStep(st1, ListPage(st.objects, prefix).contents).0 == None;
  }

  /** A fault-free round that is followed by another: what it sends and what it leaves under the prefix. */
  lemma FaultFreeFullRound(st: StoreState, prefix: Key)
    requires NoFaults(st.faults) && Distinct(st.objects) && |Under(st.objects, prefix)| > MaxKeys
    ensures var under := Under(st.objects, prefix);
      var st2 := AfterRound(st, prefix);
      && st2.requests == st.requests + [ListObjects(prefix, MaxKeys), DeleteObjects(under[..MaxKeys])]
      && NoFaults(st2.faults) && Distinct(st2.objects)
      && Under(st2.objects, prefix) == under[MaxKeys..]
      && Deletion(st, prefix).store == Deletion(st2, prefix).store
  {
    FaultFreeRound(st, prefix);
    FaultFreeContinues(st, prefix);
  }

  /** A fault-free round that ends the call. */
  lemma FaultFreeLastRound(st: StoreState, prefix: Key)
    requires NoFaults(st.faults) && Distinct(st.objects) && |Under(st.objects, prefix)| <= MaxKeys
    ensures Deletion(st, prefix).store.requests == st.requests + RoundRequests(prefix, Under(st.objects, prefix))
  {
    FaultFreeRound(st, prefix);
    FaultFreeContinues(st, prefix);
  }

  /** With no failing request and unique keys, a call sends one listing and one batch per 1000 keys under the prefix. */
  lemma {:induction false} FaultFreeRequests(st: StoreState, prefix: Key)
    requires NoFaults(st.faults) && Distinct(st.objects)
    ensures Deletion(st, prefix).store.requests == st.requests + RoundRequests(prefix, Under(st.objects, prefix))
    decreases |Under(st.objects, prefix)|
  {
    var under := Under(st.objects, prefix);
    if |under| > MaxKeys {
      var st2 := AfterRound(st, prefix);
      FaultFreeFullRound(st, prefix);
      FaultFreeRequests(st2, prefix);
      var head := [ListObjects(prefix, MaxKeys), DeleteObjects(under[..MaxKeys])];
      var tail := RoundRequests(prefix, under[MaxKeys..]);
      assert RoundRequests(prefix, under) == head + tail;
      AppendAssoc(st.requests, head, tail);
    } else {
      FaultFreeLastRound(st, prefix);
    }
  }

  /** With no failing request, the callback is invoked once with success, or twice when the prefix holds no key. */
  lemma {:induction false} FaultFreeCallbacks(st: StoreState, prefix: Key)
    requires NoFaults(st.faults) && Distinct(st.objects)
    ensures Deletion(st, prefix).callbacks == (if Under(st.objects, prefix) == [] then [None, None] else [None])
    decreases |Under(st.objects, prefix)|
  {
    var under := Under(st.objects, prefix);
    FaultFreeRound(st, prefix);
    FaultFreeContinues(st, prefix);
    if |under| > MaxKeys {
      FaultFreeCallbacks(AfterRound(st, prefix), prefix);
    }
  }

  /** With no failing request and unique keys, a call leaves no key under the prefix and keeps the keys unique. */
  lemma {:induction false} FaultFreeDeletion(st: StoreState, prefix: Key)
    requires NoFaults(st.faults) && Distinct(st.objects)
    ensures var r := Deletion(st, prefix);
      Under(r.store.objects, prefix) == [] && Distinct(r.store.objects) && NoFaults(r.store.faults)
    decreases |Under(st.objects, prefix)|
  {
    FaultFreeRound(st, prefix);
    FaultFreeContinues(st, prefix);
    if |Under(st.objects, prefix)| > MaxKeys {
      FaultFreeDeletion(AfterRound(st, prefix), prefix);
    }
  }

  /** A listing that finds no key still leads to a batch being sent, and the callback is invoked twice, first with success. */
  lemma EmptyPrefixCallsBackTwice(st: StoreState, prefix: Key)
    requires Under(st.objects, prefix) == [] && OutcomeAt(st.faults, 0).None?
    ensures var r := Deletion(st, prefix);
      && |r.callbacks| == 2 && r.callbacks[0] == None
      && r.store.requests == st.requests + [ListObjects(prefix, MaxKeys), DeleteObjects([])]
  {
  }

  /** 2500 keys take three rounds: batches of 1000, 1000 and 500. */
  lemma ThreeRoundsFor2500Keys(prefix: Key, under: seq<Key>)
    requires |under| == 2500
    ensures RoundRequests(prefix, under) == [
      ListObjects(prefix, MaxKeys), DeleteObjects(under[..1000]),
      ListObjects(prefix, MaxKeys), DeleteObjects(under[1000..2000]),
      ListObjects(prefix, MaxKeys), DeleteObjects(under[2000..])]
  {
    var second, third := under[1000..], under[2000..];
    assert second[..1000] == under[1000..2000];
    assert second[1000..] == third;
    assert RoundRequests(prefix, third) == [ListObjects(prefix, MaxKeys), DeleteObjects(third)];
    assert RoundRequests(prefix, second) ==
      [ListObjects(prefix, MaxKeys), DeleteObjects(under[1000..2000])] + RoundRequests(prefix, third);
  }
}
