/** The paginated post list of the board application: the route that selects
    a page, the page number read from it, the request window of each page,
    the paginator's page count and selected index, and what is on screen. */
module BoardList {
  import opened Wrappers
  import ParseInt

  /** Posts per page. */
  const Limit: nat := 10

  datatype Post = Post(userId: int, id: int, title: string, body: string)

  // ---------------------------------------------------------------- routes

  /** What the router renders for a path. */
  datatype Screen =
    | RedirectTo(path: string)  // `/board` is sent on to `/board/1`
    | Board(pageNo: string)     // `/board/:pageNo`
    | Photos                    // `/photo`
    | NotFound

  const BoardPrefix: string := "/board/"

  function Route(path: string): (screen: Screen)
    ensures screen.Board? ==> screen.pageNo != [] && '/' !in screen.pageNo
    ensures screen.Board? ==> path == BoardPrefix + screen.pageNo
    ensures path == "/board" ==> screen == RedirectTo("/board/1")
    ensures path == "/photo" ==> screen == Photos
  {
    if path == "/board" then RedirectTo("/board/1")
    else if path == "/photo" then Photos
    else if |path| > |BoardPrefix| && path[..|BoardPrefix|] == BoardPrefix
            && '/' !in path[|BoardPrefix|..] then
      Board(path[|BoardPrefix|..])
    else NotFound
  }

  /** Every path `/board/<segment>` with a non-empty segment free of `/`
      reaches the board, with that segment as its parameter. */
  lemma RouteBoardSegment(seg: string)
    requires seg != [] && '/' !in seg
    ensures Route(BoardPrefix + seg) == Board(seg)
  {
    var path := BoardPrefix + seg;
    assert path[..|BoardPrefix|] == BoardPrefix;
    assert path[|BoardPrefix|..] == seg;
  }

  // ------------------------------------------------------------ page number

  /** `parseInt(pageNo || "1", 10)`: an absent or empty parameter reads as
      page 1; anything else is parsed, so "0" and "-3" come through as they
      are and text without digits gives NaN (`None`). */
  function CurrentPage(pageNo: Option<string>): (page: Option<int>)
    ensures pageNo.None? ==> page == Some(1)
    ensures pageNo == Some("") ==> page == Some(1)
  {
    var text := if pageNo.None? || pageNo.value == "" then "1" else pageNo.value;
    ParseInt.ParseOne();
    ParseInt.Parse(text)
  }

  /** A page number written in decimal, possibly followed by text that does
      not start with a digit, is read back as that number. */
  lemma CurrentPageOfRendered(n: nat, rest: string)
    requires rest == [] || !ParseInt.IsDigit(rest[0])
    ensures CurrentPage(Some(ParseInt.Show(n) + rest)) == Some(n)
  {
    ParseInt.ParseShow(n, rest);
  }

  // -------------------------------------------------------- request window

  /** What the page effect asks the server for. */
  datatype Request =
    | PostsPage(start: Option<int>, limit: nat)  // `?_start=…&_limit=…`; NaN start as `None`
    | AllPosts                                   // the whole collection, for its length

  /** Offset of the first post of a page. */
  function Start(page: int): (start: int)
    ensures page >= 1 ==> start >= 0
    ensures start % Limit == 0
  {
    (page - 1) * Limit
  }

  /** The two fetches the effect starts whenever the current page changes:
      one page of posts and the whole list for the total. */
  function PageRequests(currentPage: Option<int>): (rs: seq<Request>)
    ensures |rs| == 2 && rs[0].PostsPage? && rs[1] == AllPosts
    ensures rs[0].limit == Limit
    ensures rs[0].start.Some? <==> currentPage.Some?
    ensures currentPage.Some? ==> rs[0].start.value == Start(currentPage.value)
  {
    var start := match currentPage
      case Some(p) => Some(Start(p))
      case None => None;
    [PostsPage(start, Limit), AllPosts]
  }

  /** Following a link to page n (n >= 1) starts exactly one page fetch, for
      offset (n-1)*10 and limit 10, besides the fetch of the total. */
  lemma PageRequestsForRenderedPage(n: nat)
    requires n >= 1
    ensures var rs := PageRequests(CurrentPage(Some(ParseInt.Show(n))));
      |rs| == 2 && rs[0] == PostsPage(Some((n - 1) * Limit), Limit) && rs[1] == AllPosts
      && rs[0].start.value >= 0
  {
    CurrentPageOfRendered(n, []);
    assert ParseInt.Show(n) + [] == ParseInt.Show(n);
  }

  /** The windows of pages 1, 2, 3, ... tile the non-negative offsets: offset
      i lies in the window of page p exactly when p is i / 10 + 1. So
      consecutive pages are adjacent and no two pages overlap. */
  lemma WindowPartition(i: nat, page: int)
    requires page >= 1
    ensures Start(page) <= i < Start(page) + Limit <==> page == i / Limit + 1
  {
  }

  /** The window of page p + 1 starts where that of page p ends. */
  lemma WindowsAdjacent(page: int)
    ensures Start(page) + Limit == Start(page + 1)
  {
  }

  // ------------------------------------------------------------ paginator

  /** `Math.ceil(totalPosts / limit)`. */
  function PageCount(total: nat): (n: nat)
    ensures n * Limit >= total
    ensures n > 0 ==> (n - 1) * Limit < total
  {
    (total + Limit - 1) / Limit
  }

  /** The page count is the least n with n * 10 >= total. */
  lemma PageCountLeast(total: nat, n: nat)
    requires n * Limit >= total
    ensures n >= PageCount(total)
  {
  }

  lemma PageCountExamples()
    ensures PageCount(23) == 3 && PageCount(100) == 10 && PageCount(0) == 0
  {
  }

  /** `forcePage={currentPage - 1}`: the paginator's 0-based selected index. */
  function ForcePage(currentPage: Option<int>): (index: Option<int>)
    ensures index.Some? <==> currentPage.Some?
    ensures index.Some? ==> index.value + 1 == currentPage.value
  {
    match currentPage
    case Some(p) => Some(p - 1)
    case None => None
  }

  /** `handlePageClick`: the 1-based page a 0-based selected index stands for. */
  function SelectedPage(selected: nat): (page: nat)
    ensures page >= 1
    ensures ForcePage(Some(page)) == Some(selected)
  {
    selected + 1
  }

  /** The path `handlePageClick` navigates to. */
  function ClickPath(selected: nat): (path: string)
    ensures |path| > |BoardPrefix| && path[..|BoardPrefix|] == BoardPrefix
    ensures ParseInt.AllDigits(path[|BoardPrefix|..])
  {
    BoardPrefix + ParseInt.Show(SelectedPage(selected))
  }

  /** Clicking index k navigates to a path the router sends to the board with
      a page number that reads as k + 1, and the paginator then highlights k. */
  lemma ClickRoundTrip(selected: nat)
    ensures var screen := Route(ClickPath(selected));
      screen.Board? && CurrentPage(Some(screen.pageNo)) == Some(selected + 1)
      && ForcePage(CurrentPage(Some(screen.pageNo))) == Some(selected)
  {
    var s := ParseInt.Show(selected + 1);
    var path := ClickPath(selected);
    assert path[..|BoardPrefix|] == BoardPrefix;
    assert path[|BoardPrefix|..] == s;
    assert forall j :: 0 <= j < |s| ==> s[j] != '/' by {
      forall j | 0 <= j < |s| ensures s[j] != '/' {
        assert ParseInt.IsDigit(s[j]);
      }
    }
    CurrentPageOfRendered(selected + 1, []);
    assert s + [] == s;
  }

  /** On page p >= 1, clicking the highlighted index leads back to page p. */
  lemma HighlightedClickStays(page: int)
    requires page >= 1
    ensures var k := ForcePage(Some(page));
      k.Some? && k.value >= 0
      && CurrentPage(Some(Route(ClickPath(k.value)).pageNo)) == Some(page)
  {
    var k: nat := page - 1;
    assert ForcePage(Some(page)) == Some(k);
    ClickRoundTrip(k);
    assert SelectedPage(k) == page;
  }

  /** The highlighted index is one of the paginator's pages exactly when the
      page number is at least 1 and its window starts before the end. */
  lemma ForcePageInRange(page: int, total: nat)
    ensures 0 <= ForcePage(Some(page)).value < PageCount(total)
        <==> 1 <= page && Start(page) < total
  {
  }

  // ----------------------------------------------------- component state

  /** The page the route currently names, and the `posts` and `totalPosts`
      state. The component stays mounted while the route moves from one page
      to another, so the state is kept across that navigation. */
  datatype BoardState = BoardState(currentPage: Option<int>, posts: seq<Post>, totalPosts: nat)

  /** Mounting at a page: both pieces of state start empty. */
  function InitialBoard(currentPage: Option<int>): (s: BoardState)
    ensures s.currentPage == currentPage && s.posts == [] && s.totalPosts == 0
    ensures Render(s) == Loading
  {
    BoardState(currentPage, [], 0)
  }

  /** The route now names another page; the held posts stay until a response
      lands (the effect then starts `PageRequests` for the new page). */
  function Navigated(s: BoardState, page: Option<int>): (r: BoardState)
    ensures r.currentPage == page
    ensures r.posts == s.posts && r.totalPosts == s.totalPosts
  {
    s.(currentPage := page)
  }

  /** A page response, with the page it was requested for. */
  datatype PostsResponse = PostsResponse(forPage: Option<int>, data: seq<Post>)

  /** `setPosts(resp.data)`: the response's posts take the place of the held
      ones. Which page the response answers is not looked at. */
  function PostsLoaded(s: BoardState, resp: PostsResponse): (r: BoardState)
    ensures r.posts == resp.data
    ensures r.currentPage == s.currentPage && r.totalPosts == s.totalPosts
  {
    s.(posts := resp.data)
  }

  /** `setTotalPosts(resp.data.length)`. */
  function TotalLoaded(s: BoardState, all: seq<Post>): (r: BoardState)
    ensures r.totalPosts == |all|
    ensures r.currentPage == s.currentPage && r.posts == s.posts
  {
    s.(totalPosts := |all|)
  }

  /** A response's posts replace the held posts entirely: the new state does
      not depend on the posts held before. */
  lemma PostsLoadedForgetsOld(s: BoardState, t: BoardState, resp: PostsResponse)
    requires s.currentPage == t.currentPage && s.totalPosts == t.totalPosts
    ensures PostsLoaded(s, resp) == PostsLoaded(t, resp)
    ensures PostsLoaded(s, resp).posts == resp.data
  {
  }

  /** The page fetch and the total fetch may finish in either order. */
  lemma LoadsCommute(s: BoardState, resp: PostsResponse, all: seq<Post>)
    ensures PostsLoaded(TotalLoaded(s, all), resp) == TotalLoaded(PostsLoaded(s, resp), all)
  {
  }

  datatype BoardView =
    | Loading
    | Listing(posts: seq<Post>, pageCount: nat, forcePage: Option<int>)

  /** The screen: a loading message while the total is 0, otherwise the posts
      held and a paginator of `PageCount(total)` pages, at least one, with
      the current page's index highlighted. */
  function Render(s: BoardState): (v: BoardView)
    ensures v.Loading? <==> s.totalPosts == 0
    ensures v.Listing? ==> v.posts == s.posts && v.pageCount >= 1
    ensures v.Listing? ==> v.pageCount == PageCount(s.totalPosts)
    ensures v.Listing? ==> v.forcePage == ForcePage(s.currentPage)
  {
    if s.totalPosts == 0 then Loading
    else Listing(s.posts, PageCount(s.totalPosts), ForcePage(s.currentPage))
  }

  /** Once the total is known, the screen lists exactly the posts of the last
      response to land; when that response answers the current page, the
      highlighted index is that page's. */
  lemma ShowsLastResponse(s: BoardState, resp: PostsResponse)
    requires s.totalPosts > 0
    ensures Render(PostsLoaded(s, resp)).Listing?
    ensures Render(PostsLoaded(s, resp)).posts == resp.data
    ensures resp.forPage == s.currentPage ==>
      Render(PostsLoaded(s, resp)).forcePage == ForcePage(resp.forPage)
  {
  }

  /** No response is ever discarded, so the screen can pair one page's posts
      with another page's index. Right after navigating from page 1 to page 2
      the posts of page 1 are still listed; and when the response for page 1
      lands after the one for page 2, page 1's posts stay listed while the
      paginator highlights page 2. */
  lemma StalePageShown(all: seq<Post>, first: seq<Post>, second: seq<Post>)
    requires all != []
    ensures var s := PostsLoaded(TotalLoaded(InitialBoard(Some(1)), all), PostsResponse(Some(1), first));
      Render(Navigated(s, Some(2))) == Listing(first, PageCount(|all|), Some(1))
    ensures var s := Navigated(TotalLoaded(InitialBoard(Some(1)), all), Some(2));
      var late := PostsLoaded(PostsLoaded(s, PostsResponse(Some(2), second)), PostsResponse(Some(1), first));
      Render(late) == Listing(first, PageCount(|all|), Some(1))
  {
  }
}
