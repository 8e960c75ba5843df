/**
 * The S3 bucket of app.js, reduced to what the script uses: its keys, the
 * four requests it sends (putObject, listObjectsV2 with a "/" delimiter,
 * listObjects with a prefix, deleteObjects) and their success or failure.
 *
 * Whether a request fails is not something the script decides, so the
 * state carries a tape of outcomes: each request consumes the next entry,
 * `Some(e)` making it fail with `e`; once the tape is used up every request
 * succeeds. Keys are kept in one fixed order, which stands for the order
 * S3 lists them in.
 */
module ObjectStore {
  import opened Wrappers

  type Key = string

  /** An error reported by the service or the SDK, kept opaque. */
  datatype StoreError = StoreError(message: string)

  datatype Result<+T> = Ok(value: T) | Err(error: StoreError)

  /** The requests app.js sends. */
  datatype Request =
    | PutObject(key: Key, body: string)
    | ListTopLevel                            // listObjectsV2 with Delimiter "/" and Prefix ""
    | ListObjects(prefix: Key, maxKeys: nat)  // listObjects with a Prefix and MaxKeys
    | DeleteObjects(keys: seq<Key>)           // deleteObjects of one batch

  /** One page of a prefix listing: its `Contents` keys and `IsTruncated`. */
  datatype Page = Page(contents: seq<Key>, isTruncated: bool)

  /** The bucket's keys, the outcomes of the coming requests, and the requests received so far. */
  datatype StoreState = StoreState(objects: seq<Key>, faults: seq<Option<StoreError>>, requests: seq<Request>)

  /** The page size app.js asks for, which is also S3's largest. */
  const MaxKeys := 1000

  /** No request the tape decides fails. */
  predicate NoFaults(faults: seq<Option<StoreError>>) {
    forall k :: 0 <= k < |faults| ==> faults[k].None?
  }

  /** No key occurs twice: S3 keys are unique within a bucket. */
  predicate Distinct(s: seq<Key>) {
    forall i, j :: 0 <= i < j < |s| ==> s[i] != s[j]
  }

  /** The keys starting with `prefix`, in listing order. */
  function Under(objects: seq<Key>, prefix: Key): seq<Key>
  {
    if objects == [] then []
    else (if prefix <= objects[0] then [objects[0]] else []) + Under(objects[1..], prefix)
  }

  /** The keys not starting with `prefix`, in listing order. */
  function Outside(objects: seq<Key>, prefix: Key): seq<Key>
  {
    if objects == [] then []
    else (if prefix <= objects[0] then [] else [objects[0]]) + Outside(objects[1..], prefix)
  }

  /** The keys not in `batch`, in listing order. */
  function Without(objects: seq<Key>, batch: seq<Key>): (r: seq<Key>)
    ensures |r| <= |objects|
  {
    if objects == [] then []
    else (if objects[0] in batch then [] else [objects[0]]) + Without(objects[1..], batch)
  }

  /** listObjects with MaxKeys 1000: the first 1000 keys under the prefix, truncated when there are more. */
  function ListPage(objects: seq<Key>, prefix: Key): (page: Page)
    ensures |page.contents| <= MaxKeys
    ensures page.isTruncated ==> |page.contents| == MaxKeys
    ensures page.isTruncated <==> |Under(objects, prefix)| > MaxKeys
    ensures page.contents <= Under(objects, prefix)
    ensures !page.isTruncated ==> page.contents == Under(objects, prefix)
  {
    var under := Under(objects, prefix);
    if |under| <= MaxKeys then Page(under, false) else Page(under[..MaxKeys], true)
  }

  /** The folder of a key: the key up to and including its first "/", if it has one. */
  function Folder(k: Key): (r: Option<Key>)
    ensures r.Some? ==> r.value <= k && |r.value| > 0 && r.value[|r.value| - 1] == '/'
    ensures r.Some? ==> forall j :: 0 <= j < |r.value| - 1 ==> r.value[j] != '/'
    ensures r.None? ==> '/' !in k
  {
    if k == [] then None
    else if k[0] == '/' then Some("/")
    else match Folder(k[1..])
      case None => None
      case Some(f) => Some([k[0]] + f)
  }

  /** listObjectsV2 with Delimiter "/" and Prefix "": the `CommonPrefixes`, each folder once, in listing order. */
  function CommonPrefixes(objects: seq<Key>): (r: seq<Key>)
    ensures Distinct(r)
    ensures forall p :: p in r <==> exists k :: k in objects && Folder(k) == Some(p)
  {
    if objects == [] then []
    else
      var pre, last := objects[..|objects| - 1], objects[|objects| - 1];
      var init := CommonPrefixes(pre);
      assert objects == pre + [last];
      assert forall k :: k in objects <==> k in pre || k == last;
      match Folder(last)
      case None => init
      case Some(f) => if f in init then init else init + [f]
  }

  /** The outcome of the next request, and the tape after it. */
  function NextOutcome(faults: seq<Option<StoreError>>): (Option<StoreError>, seq<Option<StoreError>>) {
    if faults == [] then (None, []) else (faults[0], faults[1..])
  }

  /**
   * putObject: stores (or overwrites) `key` unless the request fails. No key
   * goes, `key` is the only one that can come, and keys stay unique.
   */
  function PutStep(st: StoreState, key: Key, body: string): (r: (Option<StoreError>, StoreState))
    ensures forall k :: k in st.objects ==> k in r.1.objects
    ensures forall k :: k in r.1.objects ==> k in st.objects || k == key
    ensures r.0.None? ==> key in r.1.objects
    ensures r.0.Some? ==> r.1.objects == st.objects
    ensures Distinct(st.objects) ==> Distinct(r.1.objects)
  {
    var (fault, tape) := NextOutcome(st.faults);
    var objects := if fault.Some? || key in st.objects then st.objects else st.objects + [key];
    (fault, StoreState(objects, tape, st.requests + [PutObject(key, body)]))
  }

  /** listObjectsV2 at the top level: the folders of the bucket's keys; the bucket is unchanged. */
  function ListTopStep(st: StoreState): (r: (Result<seq<Key>>, StoreState))
    ensures r.1.objects == st.objects
    ensures r.0.Ok? ==> forall p :: p in r.0.value <==> exists k :: k in st.objects && Folder(k) == Some(p)
  {
    var (fault, tape) := NextOutcome(st.faults);
    var st' := StoreState(st.objects, tape, st.requests + [ListTopLevel]);
    if fault.Some? then (Err(fault.value), st') else (Ok(CommonPrefixes(st.objects)), st')
  }

  /**
   * listObjects under `prefix`: at most 1000 keys, all of them in the bucket
   * and under the prefix; truncated exactly when more keys are under it, and
   * otherwise listing all of them.
   */
  function ListStep(st: StoreState, prefix: Key): (r: (Result<Page>, StoreState))
    ensures r.1.objects == st.objects
    ensures r.0.Ok? ==> |r.0.value.contents| <= MaxKeys
    ensures r.0.Ok? ==> forall k {:trigger k in r.0.value.contents} :: k in r.0.value.contents ==> k in st.objects && prefix <= k
    ensures r.0.Ok? ==> (r.0.value.isTruncated <==> |Under(st.objects, prefix)| > MaxKeys)
    ensures r.0.Ok? && !r.0.value.isTruncated ==> r.0.value.contents == Under(st.objects, prefix)
  {
    ListPageMembers(st.objects, prefix);
    var (fault, tape) := NextOutcome(st.faults);
    var st' := StoreState(st.objects, tape, st.requests + [ListObjects(prefix, MaxKeys)]);
    if fault.Some? then (Err(fault.value), st') else (Ok(ListPage(st.objects, prefix)), st')
  }

  /** deleteObjects: removes exactly the keys of the batch unless the request fails. */
  function DeleteStep(st: StoreState, batch: seq<Key>): (r: (Option<StoreError>, StoreState))
    ensures r.0.Some? ==> r.1.objects == st.objects
    ensures r.0.None? ==> forall k {:trigger k in r.1.objects} :: k in r.1.objects <==> k in st.objects && k !in batch
  {
    WithoutMembers(st.objects, batch);
    var (fault, tape) := NextOutcome(st.faults);
    var objects := if fault.Some? then st.objects else Without(st.objects, batch);
    (fault, StoreState(objects, tape, st.requests + [DeleteObjects(batch)]))
  }

  // ---------------------------------------------------------------------
  // Facts about the key filters

  lemma {:induction false} UnderMembers(objects: seq<Key>, prefix: Key)
    ensures forall k :: k in Under(objects, prefix) <==> k in objects && prefix <= k
  {
    if objects != [] {
      UnderMembers(objects[1..], prefix);
      assert objects == [objects[0]] + objects[1..];
    }
  }

  lemma {:induction false} OutsideMembers(objects: seq<Key>, prefix: Key)
    ensures forall k :: k in Outside(objects, prefix) <==> k in objects && !(prefix <= k)
  {
    if objects != [] {
      OutsideMembers(objects[1..], prefix);
      assert objects == [objects[0]] + objects[1..];
    }
  }

  lemma {:induction false} WithoutMembers(objects: seq<Key>, batch: seq<Key>)
    ensures forall k :: k in Without(objects, batch) <==> k in objects && k !in batch
  {
    if objects != [] {
      WithoutMembers(objects[1..], batch);
      assert objects == [objects[0]] + objects[1..];
    }
  }

  /** A listed page holds keys of the bucket under the prefix only. */
  lemma ListPageMembers(objects: seq<Key>, prefix: Key)
    ensures forall k :: k in ListPage(objects, prefix).contents ==> k in objects && prefix <= k
  {
    UnderMembers(objects, prefix);
  }

  lemma DistinctCons(a: Key, s: seq<Key>)
    ensures Distinct([a] + s) <==> a !in s && Distinct(s)
  {
    var t := [a] + s;
    assert t[1..] == s;
    if a !in s && Distinct(s) {
      forall i, j | 0 <= i < j < |t| ensures t[i] != t[j] {
        if i > 0 {
          assert t[i] == s[i - 1] && t[j] == s[j - 1];
        } else {
          assert t[j] == s[j - 1];
        }
      }
    }
    if Distinct(t) {
      forall i, j | 0 <= i < j < |s| ensures s[i] != s[j] {
        assert s[i] == t[i + 1] && s[j] == t[j + 1];
      }
      forall j | 0 <= j < |s| ensures s[j] != a {
        assert t[0] == a && t[j + 1] == s[j] && 0 < j + 1 < |t|;
        assert t[0] != t[j + 1];
      }
    }
  }

  lemma {:induction false} UnderDistinct(objects: seq<Key>, prefix: Key)
    requires Distinct(objects)
    ensures Distinct(Under(objects, prefix))
  {
    if objects != [] {
      DistinctCons(objects[0], objects[1..]);
      assert objects == [objects[0]] + objects[1..];
      UnderDistinct(objects[1..], prefix);
      UnderMembers(objects[1..], prefix);
      DistinctCons(objects[0], Under(objects[1..], prefix));
    }
  }

  lemma {:induction false} WithoutDistinct(objects: seq<Key>, batch: seq<Key>)
    requires Distinct(objects)
    ensures Distinct(Without(objects, batch))
  {
    if objects != [] {
      DistinctCons(objects[0], objects[1..]);
      assert objects == [objects[0]] + objects[1..];
      WithoutDistinct(objects[1..], batch);
      WithoutMembers(objects[1..], batch);
      DistinctCons(objects[0], Without(objects[1..], batch));
    }
  }

  /** Removing a batch and then filtering by prefix is filtering and then removing. */
  lemma {:induction false} UnderWithout(objects: seq<Key>, batch: seq<Key>, prefix: Key)
    ensures Under(Without(objects, batch), prefix) == Without(Under(objects, prefix), batch)
  {
    if objects != [] {
      var a, tail := objects[0], objects[1..];
      assert objects == [a] + tail;
      UnderWithout(tail, batch, prefix);
      var w, u := Without(tail, batch), Under(tail, prefix);
      ConsFilters(a, tail, batch, prefix);
      ConsFilters(a, w, batch, prefix);
      ConsFilters(a, u, batch, prefix);
      if a in batch {
        assert Without(objects, batch) == w;
      } else {
        assert Without(objects, batch) == [a] + w;
      }
      if prefix <= a {
        assert Under(objects, prefix) == [a] + u;
      } else {
        assert Under(objects, prefix) == u;
      }
    }
  }

  /** How the three filters treat a sequence with a known first key. */
  lemma ConsFilters(a: Key, s: seq<Key>, batch: seq<Key>, prefix: Key)
    ensures Under([a] + s, prefix) == (if prefix <= a then [a] else []) + Under(s, prefix)
    ensures Outside([a] + s, prefix) == (if prefix <= a then [] else [a]) + Outside(s, prefix)
    ensures Without([a] + s, batch) == (if a in batch then [] else [a]) + Without(s, batch)
  {
    assert ([a] + s)[1..] == s;
  }

  /** A batch of keys under `prefix` leaves the keys outside it as they were. */
  lemma {:induction false} OutsideWithout(objects: seq<Key>, batch: seq<Key>, prefix: Key)
    requires forall k :: k in batch ==> prefix <= k
    ensures Outside(Without(objects, batch), prefix) == Outside(objects, prefix)
  {
    if objects != [] {
      var a, tail := objects[0], objects[1..];
      assert objects == [a] + tail;
      OutsideWithout(tail, batch, prefix);
      var w := Without(tail, batch);
      ConsFilters(a, tail, batch, prefix);
      ConsFilters(a, w, batch, prefix);
      if a in batch {
        assert Without(objects, batch) == w;
      } else {
        assert Without(objects, batch) == [a] + w;
      }
    }
  }

  lemma {:induction false} WithoutShrinks(s: seq<Key>, batch: seq<Key>, x: Key)
    requires x in s && x in batch
    ensures |Without(s, batch)| < |s|
  {
    if s[0] != x {
      WithoutShrinks(s[1..], batch, x);
    }
  }

  lemma {:induction false} WithoutAll(s: seq<Key>, batch: seq<Key>)
    requires forall x :: x in s ==> x in batch
    ensures Without(s, batch) == []
  {
    if s != [] {
      WithoutAll(s[1..], batch);
    }
  }

  lemma {:induction false} WithoutNone(s: seq<Key>, batch: seq<Key>)
    requires forall x :: x in s ==> x !in batch
    ensures Without(s, batch) == s
  {
    if s != [] {
      WithoutNone(s[1..], batch);
      assert s == [s[0]] + s[1..];
    }
  }

  /** Removing the first `k` keys of a sequence without repeats leaves the rest. */
  lemma {:induction false} WithoutLeading(u: seq<Key>, batch: seq<Key>, k: nat)
    requires Distinct(u) && k <= |u|
    requires forall x :: x in u ==> (x in batch <==> x in u[..k])
    ensures Without(u, batch) == u[k..]
  {
    if k == 0 {
      WithoutNone(u, batch);
    } else {
      var tail := u[1..];
      DistinctCons(u[0], tail);
      assert u == [u[0]] + tail;
      assert u[..k] == [u[0]] + tail[..k - 1];
      forall x | x in tail ensures x in batch <==> x in tail[..k - 1] {
        assert x != u[0];
      }
      WithoutLeading(tail, batch, k - 1);
      assert u[k..] == tail[k - 1..];
    }
  }

  /** The bucket, as app.js's `s3` client sees it. */
  class Store {
    var objects: seq<Key>
    var faults: seq<Option<StoreError>>
    var requests: seq<Request>

    function State(): StoreState
      reads this
    {
      StoreState(objects, faults, requests)
    }

    constructor (objects: seq<Key>, faults: seq<Option<StoreError>>)
      ensures State() == StoreState(objects, faults, [])
    {
      this.objects := objects;
      this.faults := faults;
      this.requests := [];
    }

    /** Consumes the outcome of one request. */
    method Respond() returns (fault: Option<StoreError>)
      modifies this`faults
      ensures (fault, faults) == NextOutcome(old(faults))
    {
      if faults == [] {
        fault := None;
      } else {
        fault := faults[0];
        faults := faults[1..];
      }
    }

    method PutObject(key: Key, body: string) returns (err: Option<StoreError>)
      modifies this
      ensures (err, State()) == PutStep(old(State()), key, body)
    {
      requests := requests + [Request.PutObject(key, body)];
      err := Respond();
      if err.None? && key !in objects {
        objects := objects + [key];
      }
    }

    method ListTopLevel() returns (r: Result<seq<Key>>)
      modifies this
      ensures (r, State()) == ListTopStep(old(State()))
    {
      requests := requests + [Request.ListTopLevel];
      var fault := Respond();
      r := if fault.Some? then Err(fault.value) else Ok(CommonPrefixes(objects));
    }

    method ListObjects(prefix: Key) returns (r: Result<Page>)
      modifies this
      ensures (r, State()) == ListStep(old(State()), prefix)
    {
      requests := requests + [Request.ListObjects(prefix, MaxKeys)];
      var fault := Respond();
      r := if fault.Some? then Err(fault.value) else Ok(ListPage(objects, prefix));
    }

    method DeleteObjects(batch: seq<Key>) returns (err: Option<StoreError>)
      modifies this
      ensures (err, State()) == DeleteStep(old(State()), batch)
    {
      requests := requests + [Request.DeleteObjects(batch)];
      err := Respond();
      if err.None? {
        objects := Without(objects, batch);
      }
    }
  }
}
