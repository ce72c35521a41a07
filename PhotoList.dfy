/** The infinite-scroll photo gallery: a fetch gate that loads one page of
    photos at a time, fetches page 1 on mount, ignores the first visibility
    report of the sentinel below the grid and every report that arrives while
    a fetch is in flight, and on every other report moves to the next page. */
module PhotoList {
  import opened Wrappers

  datatype Photo = Photo(id: string, altDescription: string, smallUrl: string, userName: string)

  /** The pages 1, 2, ..., n in order. */
  function PagesUpTo(n: nat): (ps: seq<nat>)
    ensures |ps| == n
    ensures forall i :: 0 <= i < n ==> ps[i] == i + 1
  {
    if n == 0 then [] else PagesUpTo(n - 1) + [n]
  }

  /** One successful fetch: the page asked for and the photos it returned. */
  datatype Batch = Batch(page: nat, items: seq<Photo>)

  /** The photos of the batches, one batch after the other. */
  function Concat(batches: seq<Batch>): seq<Photo> {
    if batches == [] then [] else batches[0].items + Concat(batches[1..])
  }

  lemma {:induction false} ConcatAppend(batches: seq<Batch>, b: Batch)
    ensures Concat(batches + [b]) == Concat(batches) + b.items
  {
    if batches == [] {
      assert [b][1..] == [];
    } else {
      assert (batches + [b])[1..] == batches[1..] + [b];
      ConcatAppend(batches[1..], b);
    }
  }

  /** Pages listed in strictly increasing order, none beyond `bound`. */
  ghost predicate IncreasingPages(batches: seq<Batch>, bound: nat) {
    (forall i, j :: 0 <= i < j < |batches| ==> batches[i].page < batches[j].page)
    && (forall i :: 0 <= i < |batches| ==> batches[i].page <= bound)
  }

  /** The gallery's state. `loading` stands for both the `loading` state and
      `loadingRef.current`: the model takes the ref to follow the state
      without the one-effect delay. `didMount` is `didMountRef.current`. */
  class FetchGate {
    var photos: seq<Photo>
    var page: nat
    var loading: bool
    var didMount: bool

    /** Every page fetched so far, in the order the fetches were started. */
    ghost var requested: seq<nat>
    /** The successful fetches, in the order they finished. */
    ghost var loaded: seq<Batch>

    /** Pages 1..page have each been fetched exactly once and in order; the
        photos are the results of the successful fetches in page order; the
        fetch in flight, if any, is for `page`; before the first accepted
        trigger the page is still 1. */
    ghost predicate Valid()
      reads this
    {
      page >= 1
      && requested == PagesUpTo(page)
      && (!didMount ==> page == 1)
      && photos == Concat(loaded)
      && IncreasingPages(loaded, if loading then page - 1 else page)
    }

    /** Mounting: the state starts empty at page 1, and the page effect starts
        the fetch of page 1 straight away. */
    constructor ()
      ensures Valid()
      ensures photos == [] && page == 1 && loading && !didMount
      ensures requested == [1] && loaded == []
    {
      photos := [];
      page := 1;
      didMount := false;
      loading := true;
      requested := [1];
      loaded := [];
    }

    /** The observer reports the sentinel as `visible` or not. The page that
        starts to be fetched, if any, is returned. */
    method Trigger(visible: bool) returns (fetch: Option<nat>)
      requires Valid()
      modifies this
      ensures Valid()
      ensures photos == old(photos) && loaded == old(loaded)
      ensures page >= old(page)
      ensures !visible || old(loading) ==>
        fetch == None && page == old(page) && loading == old(loading)
        && didMount == old(didMount) && requested == old(requested)
      ensures visible && !old(loading) && !old(didMount) ==>
        fetch == None && page == old(page) && !loading && didMount
        && requested == old(requested)
      ensures visible && !old(loading) && old(didMount) ==>
        page == old(page) + 1 && fetch == Some(page) && loading && didMount
        && requested == old(requested) + [page]
    {
      fetch := None;
      if visible && !loading {
        if didMount {
          page := page + 1;
          // the page effect runs fetchPhotos for the new page
          loading := true;
          requested := requested + [page];
          fetch := Some(page);
        } else {
          didMount := true;
        }
      }
    }

    /** The fetch in flight returned `items`: they go after the photos shown. */
    method FetchSucceeded(items: seq<Photo>)
      requires Valid() && loading
      modifies this
      ensures Valid()
      ensures photos == old(photos) + items
      ensures !loading && page == old(page) && didMount == old(didMount)
      ensures requested == old(requested) && loaded == old(loaded) + [Batch(page, items)]
    {
      ConcatAppend(loaded, Batch(page, items));
      photos := photos + items;
      loaded := loaded + [Batch(page, items)];
      loading := false;
    }

    /** The fetch in flight failed: the error is logged and nothing is added. */
    method FetchFailed()
      requires Valid() && loading
      modifies this
      ensures Valid()
      ensures photos == old(photos) && loaded == old(loaded)
      ensures !loading && page == old(page) && didMount == old(didMount)
      ensures requested == old(requested)
    {
      loading := false;
    }
  }

  /** The sentinel is already visible when the gallery mounts. With the
      model's single in-flight flag the report at mount arrives while page 1
      is loading and is dropped by the loading guard; the first report after
      page 1 lands is then the one `didMount` consumes, so the user's first
      scroll back to the sentinel fetches nothing and the second fetches
      page 2. The pages the gate has fetched after each scroll are read from
      its log. */
  method VisibleOnMountScenario(first: seq<Photo>)
    returns (firstScroll: Option<nat>, secondScroll: Option<nat>, shown: seq<Photo>,
             ghost afterFirstScroll: seq<nat>, ghost afterSecondScroll: seq<nat>)
    ensures firstScroll == None && secondScroll == Some(2)
    ensures shown == first
    ensures afterFirstScroll == [1] && afterSecondScroll == [1, 2]
  {
    var g := new FetchGate();
    var f := g.Trigger(true);     // the report at mount, while page 1 is loading
    assert f == None;
    g.FetchSucceeded(first);
    f := g.Trigger(false);        // the user scrolls the sentinel out of view
    firstScroll := g.Trigger(true);   // and back: consumed by the didMount rule
    afterFirstScroll := g.requested;
    f := g.Trigger(false);
    secondScroll := g.Trigger(true);  // the second scroll back fetches page 2
    afterSecondScroll := g.requested;
    shown := g.photos;
  }

  /** When the report at mount arrives once page 1 has landed (the order in
      which the code's `loadingRef` still reads false), it is the one the
      `didMount` rule consumes, and the first scroll back fetches page 2. */
  method MountReportConsumedScenario(first: seq<Photo>)
    returns (atMount: Option<nat>, firstScroll: Option<nat>, page: nat, ghost fetched: seq<nat>)
    ensures atMount == None && firstScroll == Some(2) && page == 2
    ensures fetched == [1, 2]
  {
    var g := new FetchGate();
    g.FetchSucceeded(first);
    atMount := g.Trigger(true);   // the report at mount
    var f := g.Trigger(false);
    firstScroll := g.Trigger(true);   // the first scroll back
    page := g.page;
    fetched := g.requested;
  }

  /** Reports that arrive while page 2 is loading, however the sentinel
      moves in and out of view, start no further fetch. */
  method OverlappingTriggersScenario(first: seq<Photo>, second: seq<Photo>)
    returns (started: Option<nat>, during: seq<Option<nat>>, shown: seq<Photo>,
             ghost fetched: seq<nat>)
    ensures started == Some(2)
    ensures during == [None, None, None, None]
    ensures shown == first + second
    ensures fetched == [1, 2]
  {
    var g := new FetchGate();
    g.FetchSucceeded(first);
    var f := g.Trigger(true);     // the report at mount, consumed
    f := g.Trigger(false);
    started := g.Trigger(true);   // page 2 starts loading
    var out1 := g.Trigger(false);
    var in1 := g.Trigger(true);
    var out2 := g.Trigger(false);
    var in2 := g.Trigger(true);
    during := [out1, in1, out2, in2];
    g.FetchSucceeded(second);
    shown := g.photos;
    fetched := g.requested;
  }

  /** A failed fetch is not repeated: after page 1 fails, the next accepted
      trigger fetches page 2, so the photos of page 1 never appear. */
  method FailedPageSkippedScenario(second: seq<Photo>)
    returns (firstScroll: Option<nat>, shown: seq<Photo>, ghost fetched: seq<nat>)
    ensures firstScroll == Some(2)
    ensures shown == second
    ensures fetched == [1, 2]
  {
    var g := new FetchGate();
    g.FetchFailed();
    var f := g.Trigger(true);     // the report at mount, consumed
    assert f == None && g.page == 1;
    f := g.Trigger(false);
    firstScroll := g.Trigger(true);   // the first scroll back
    g.FetchSucceeded(second);
    shown := g.photos;
    fetched := g.requested;
  }
}
