/**
 * The model routing table (`ModelRoutesFile`): which models each upstream
 * serves, and the inverse index from a model to the upstreams serving it.
 * Covers `save_model_routes`, `build_model_routes`, `cleanup_model_routes`
 * and `apply_routes_to_upstreams`. Writing the file is left out; a file
 * that fails to load is the `None` input of the cleanup.
 */
module ModelRoutes {
  import opened Common
  import opened Text
  import opened Seqs
  import opened StrOrder
  import opened Config
  import opened Router

  /** `BTreeMap`s are maps; their sorted iteration only matters where a first element is picked. */
  datatype RoutesFile = RoutesFile(
    updatedAtMs: u64,
    models: map<string, seq<string>>,
    upstreams: map<string, seq<string>>)

  datatype RoutesError = UnknownUpstream(id: string)

  // ---- the inverse index ----

  /** Every model some list names. */
  function ModelsNamed(lists: map<string, seq<string>>): (r: set<string>)
    ensures forall m :: m in r <==> exists id :: id in lists && m in lists[id]
  {
    set id, m | id in lists.Keys && m in lists[id] :: m
  }

  /**
   * The `models` map built from per-upstream lists: each model named by
   * some list maps to the ids whose list names it, sorted and de-duplicated
   * (what the push-then-`sort`-then-`dedup` loop leaves).
   */
  function Inverse(lists: map<string, seq<string>>): (r: map<string, seq<string>>)
    ensures r.Keys == ModelsNamed(lists)
  {
    map m | m in ModelsNamed(lists) :: SortedElements(set id | id in lists.Keys && m in lists[id])
  }

  /** An id is listed under a model exactly when that id's list names the model; the lists are sorted and non-empty. */
  lemma InverseExact(lists: map<string, seq<string>>, m: string, id: string)
    ensures m in Inverse(lists) ==> StrictlySorted(Inverse(lists)[m]) && |Inverse(lists)[m]| > 0
    ensures (m in Inverse(lists) && id in Inverse(lists)[m]) <==> (id in lists && m in lists[id])
  {
    if m in Inverse(lists) {
      var ids := set id | id in lists.Keys && m in lists[id];
      var w :| w in lists && m in lists[w];
      assert w in ids;
    }
  }

  // ---- save_model_routes ----

  /** One list as `save_model_routes` keeps it: trimmed, blanks dropped, sorted, duplicates gone. */
  function CleanModelList(models: seq<string>): (r: seq<string>)
    ensures StrictlySorted(r) && Distinct(r)
    ensures forall x :: x in r <==> x in TrimAndDropBlank(models)
  {
    var r := SortedElements(SetOf(TrimAndDropBlank(models)));
    StrictlySortedIsDistinct(r);
    r
  }

  /** Cleaning a list that is already clean gives it back. */
  lemma CleanListIdempotent(models: seq<string>)
    ensures CleanModelList(CleanModelList(models)) == CleanModelList(models)
  {
    var r := CleanModelList(models);
    CleanListSubset(r, TrimAndDropBlank(models));
    TrimAndDropBlankOfClean(r);
    SortedUnique(CleanModelList(r), r);
  }

  /** The smallest id of a non-empty set, which is the first one a `BTreeMap` walk meets. */
  function FirstUnknown(ids: set<string>): (r: string)
    requires ids != {}
    ensures r in ids && forall y :: y in ids && y != r ==> Less(r, y)
  {
    Least(ids)
  }

  /**
   * `save_model_routes`: every id in the request must name an upstream of
   * the snapshot, else the first unknown id (in key order) is refused and
   * nothing changes. Otherwise each list is cleaned, the inverse index is
   * built from the cleaned lists, and the routes are applied to the
   * snapshot's upstreams.
   */
  function SaveModelRoutes(snap: RouterSnapshot, request: map<string, seq<string>>, nowMs: u64)
    : (r: Result<(RoutesFile, seq<Upstream>), RoutesError>)
    ensures r.Err? <==> exists id :: id in request && id !in snap.upstreamIndex
    ensures r.Err? ==> (r.error.id in request && r.error.id !in snap.upstreamIndex &&
      forall y :: y in request && y !in snap.upstreamIndex && y != r.error.id ==> Less(r.error.id, y))
    ensures r.Ok? ==> r.value.0.updatedAtMs == nowMs && r.value.0.upstreams.Keys == request.Keys
    ensures r.Ok? ==> forall id :: id in request ==> r.value.0.upstreams[id] == CleanModelList(request[id])
    ensures r.Ok? ==> r.value.0.models == Inverse(r.value.0.upstreams)
    ensures r.Ok? ==> r.value.1 == ApplyRoutes(r.value.0, snap)
  {
    var unknown := UnknownIds(snap, request);
    if unknown != {} then Err(UnknownUpstream(FirstUnknown(unknown)))
    else
      var clean := CleanLists(request);
      var routes := RoutesFile(nowMs, Inverse(clean), clean);
      Ok((routes, ApplyRoutes(routes, snap)))
  }

  function UnknownIds(snap: RouterSnapshot, request: map<string, seq<string>>): (r: set<string>)
    ensures forall id :: id in r <==> id in request && id !in snap.upstreamIndex
  {
    set id | id in request.Keys && id !in snap.upstreamIndex
  }

  function CleanLists(request: map<string, seq<string>>): (r: map<string, seq<string>>)
    ensures r.Keys == request.Keys
    ensures forall id :: id in r ==> r[id] == CleanModelList(request[id])
  {
    map id | id in request.Keys :: CleanModelList(request[id])
  }

  /** Saving the lists a save produced gives the same table again. */
  lemma SaveIdempotent(snap: RouterSnapshot, request: map<string, seq<string>>, nowMs: u64)
    requires SaveModelRoutes(snap, request, nowMs).Ok?
    ensures var saved := SaveModelRoutes(snap, request, nowMs).value.0;
      SaveModelRoutes(snap, saved.upstreams, nowMs).Ok? &&
      SaveModelRoutes(snap, saved.upstreams, nowMs).value.0 == saved
  {
    var clean := CleanLists(request);
    assert SaveModelRoutes(snap, request, nowMs).value.0 == RoutesFile(nowMs, Inverse(clean), clean);
    CleanListsIdempotent(request);
    assert UnknownIds(snap, clean) == UnknownIds(snap, request);
  }

  lemma CleanListsIdempotent(request: map<string, seq<string>>)
    ensures CleanLists(CleanLists(request)) == CleanLists(request)
  {
    var clean := CleanLists(request);
    forall id | id in clean ensures CleanModelList(clean[id]) == clean[id] {
      CleanListIdempotent(request[id]);
    }
  }

  // ---- apply_routes_to_upstreams ----

  /** The models the routes give to the upstream at `idx`: every trimmed non-blank entry of every id indexed there. */
  function ModelsAt(routes: RoutesFile, index: map<string, nat>, idx: nat): (r: set<string>)
    ensures forall m :: m in r <==> exists id :: (id in routes.upstreams && id in index && index[id] == idx &&
      m in TrimAndDropBlank(routes.upstreams[id]))
  {
    set id, m | id in routes.upstreams.Keys && id in index && index[id] == idx &&
      m in TrimAndDropBlank(routes.upstreams[id]) :: m
  }

  /** `apply_routes_to_upstreams`: every upstream's model set is replaced, by the empty set when no route names it. */
  function ApplyRoutes(routes: RoutesFile, snap: RouterSnapshot): (r: seq<Upstream>)
    ensures |r| == |snap.upstreams|
    ensures forall i :: 0 <= i < |r| ==> r[i] == snap.upstreams[i].(models := ModelsAt(routes, snap.upstreamIndex, i))
  {
    seq(|snap.upstreams|, i requires 0 <= i < |snap.upstreams| =>
      snap.upstreams[i].(models := ModelsAt(routes, snap.upstreamIndex, i)))
  }

  /** In a consistent snapshot, an indexed upstream ends up with exactly its own route's models. */
  lemma ApplyRoutesById(routes: RoutesFile, snap: RouterSnapshot, id: string)
    requires SnapshotOk(snap) && id in snap.upstreamIndex
    ensures var ups := ApplyRoutes(routes, snap); var idx := snap.upstreamIndex[id];
      idx < |ups| && ups[idx].models == (if id in routes.upstreams then SetOf(TrimAndDropBlank(routes.upstreams[id])) else {})
  {
    var idx := snap.upstreamIndex[id];
    var got := ModelsAt(routes, snap.upstreamIndex, idx);
    forall m ensures m in got <==> id in routes.upstreams && m in TrimAndDropBlank(routes.upstreams[id]) {
      if m in got {
        var other :| other in routes.upstreams && other in snap.upstreamIndex && snap.upstreamIndex[other] == idx &&
          m in TrimAndDropBlank(routes.upstreams[other]);
        assert snap.upstreams[idx].id == other && snap.upstreams[idx].id == id;
      }
    }
  }

  // ---- build_model_routes ----

  /** The `upstreams` map: each upstream with a non-empty model set, its models sorted; a later equal id overwrites. */
  function ListsOf(ups: seq<Upstream>): map<string, seq<string>> {
    if |ups| == 0 then map[]
    else
      var u := ups[|ups| - 1];
      var rest := ListsOf(ups[..|ups| - 1]);
      if u.models == {} then rest else rest[u.id := SortedElements(u.models)]
  }

  /** The ids listed are those of the upstreams with at least one model. */
  lemma {:induction false} ListsOfKeys(ups: seq<Upstream>, id: string)
    ensures id in ListsOf(ups) <==> exists j :: 0 <= j < |ups| && ups[j].id == id && ups[j].models != {}
  {
    if |ups| > 0 {
      ListsOfKeys(ups[..|ups| - 1], id);
      ServedSnoc(ups, id);
    }
  }

  /** Some upstream with id `id` has at least one model. */
  ghost predicate Served(ups: seq<Upstream>, id: string) {
    exists j :: 0 <= j < |ups| && ups[j].id == id && ups[j].models != {}
  }

  lemma ServedSnoc(ups: seq<Upstream>, id: string)
    requires |ups| > 0
    ensures var n := |ups| - 1;
      Served(ups, id) <==> Served(ups[..n], id) || (ups[n].id == id && ups[n].models != {})
  {
    var n := |ups| - 1;
    var pre := ups[..n];
    if Served(ups, id) {
      var j :| 0 <= j < |ups| && ups[j].id == id && ups[j].models != {};
      if j < n {
        assert pre[j] == ups[j];
      }
    }
    if Served(pre, id) {
      var j :| 0 <= j < |pre| && pre[j].id == id && pre[j].models != {};
      assert ups[j] == pre[j];
    }
  }

  /**
   * `build_model_routes`: the table read off the snapshot's upstreams. The
   * inverse index lists, for each model, the ids of the upstreams serving it.
   */
  function BuildModelRoutes(ups: seq<Upstream>, nowMs: u64): (r: RoutesFile)
    ensures r.updatedAtMs == nowMs && r.upstreams == ListsOf(ups)
    ensures forall m :: m in r.models <==> exists j :: 0 <= j < |ups| && m in ups[j].models
    ensures forall m :: m in r.models ==> r.models[m] == SortedElements(set j | 0 <= j < |ups| && m in ups[j].models :: ups[j].id)
  {
    var served := set j, m | 0 <= j < |ups| && m in ups[j].models :: m;
    RoutesFile(nowMs, map m | m in served :: SortedElements(set j | 0 <= j < |ups| && m in ups[j].models :: ups[j].id), ListsOf(ups))
  }

  predicate DistinctUpstreamIds(ups: seq<Upstream>) {
    forall a, b :: 0 <= a < b < |ups| ==> ups[a].id != ups[b].id
  }

  /** With distinct ids (as every built snapshot has), the list of an upstream is its model set, sorted. */
  lemma {:induction false} ListsOfDistinct(ups: seq<Upstream>, j: nat)
    requires DistinctUpstreamIds(ups) && j < |ups| && ups[j].models != {}
    ensures ups[j].id in ListsOf(ups) && ListsOf(ups)[ups[j].id] == SortedElements(ups[j].models)
  {
    var n := |ups| - 1;
    var pre := ups[..n];
    if j < n {
      assert pre[j] == ups[j];
      assert ups[n].id != ups[j].id;
      assert DistinctUpstreamIds(pre) by {
        forall a, b | 0 <= a < b < |pre| ensures pre[a].id != pre[b].id {
          assert pre[a] == ups[a] && pre[b] == ups[b];
        }
      }
      ListsOfDistinct(pre, j);
    }
  }

  /** With distinct ids, the inverse index built off the snapshot agrees with its per-upstream lists. */
  lemma BuildModelRoutesInverse(ups: seq<Upstream>, nowMs: u64, m: string, id: string)
    requires DistinctUpstreamIds(ups)
    ensures var r := BuildModelRoutes(ups, nowMs);
      (m in r.models && id in r.models[m]) <==> (id in r.upstreams && m in r.upstreams[id])
  {
    var r := BuildModelRoutes(ups, nowMs);
    if m in r.models && id in r.models[m] {
      var j :| 0 <= j < |ups| && m in ups[j].models && ups[j].id == id;
      ListsOfDistinct(ups, j);
    }
    if id in r.upstreams && m in r.upstreams[id] {
      ListsOfKeys(ups, id);
      var j :| 0 <= j < |ups| && ups[j].id == id && ups[j].models != {};
      ListsOfDistinct(ups, j);
      assert m in ups[j].models;
      assert ups[j].id in (set k | 0 <= k < |ups| && m in ups[k].models :: ups[k].id);
    }
  }

  // ---- cleanup_model_routes ----

  /**
   * `cleanup_model_routes`: drops the lists of ids the snapshot no longer
   * has. When none is dropped (or no table could be loaded) nothing is
   * written or applied; otherwise the inverse index is rebuilt from the
   * remaining lists as they are (no trimming) and the table is applied.
   */
  function CleanupModelRoutes(loaded: Option<RoutesFile>, snap: RouterSnapshot, nowMs: u64)
    : (r: Option<(RoutesFile, seq<Upstream>)>)
    ensures loaded.None? ==> r.None?
    ensures loaded.Some? ==> (r.None? <==> forall id :: id in loaded.value.upstreams ==> id in snap.upstreamIndex)
    ensures r.Some? ==> var (t, ups) := r.value;
      && t.updatedAtMs == nowMs
      && (forall id :: id in t.upstreams <==> id in loaded.value.upstreams && id in snap.upstreamIndex)
      && (forall id :: id in t.upstreams ==> t.upstreams[id] == loaded.value.upstreams[id])
      && t.models == Inverse(t.upstreams)
      && ups == ApplyRoutes(t, snap)
  {
    match loaded
    case None => None
    case Some(routes) =>
      var kept := map id | id in routes.upstreams.Keys && id in snap.upstreamIndex :: routes.upstreams[id];
      if kept.Keys == routes.upstreams.Keys then None
      else
        var t := RoutesFile(nowMs, Inverse(kept), kept);
        Some((t, ApplyRoutes(t, snap)))
  }
}
