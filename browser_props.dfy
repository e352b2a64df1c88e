/**
 * What the key handling of the terminal browser guarantees: cursor bounds,
 * paging, the append-only growth of the album and queue lists, the eager
 * loading after Enter, and invariants kept by every event.
 */
module BrowserProps {
  import opened Wrappers
  import opened BrowserModel

  // ----- single keys -----

  /** Tab goes to the tag view from the album view and to the album view otherwise; `q` goes to the queue. */
  lemma ViewKeys(s: Snapshot, rows: nat, fetch: Fetch, resolve: Resolve)
    requires rows >= 3
    ensures var (r, out) := s.ApplyKey(Tab, rows, fetch, resolve);
      && out == Continue && r.currentView == TabTarget(s.currentView) && r.currentView != Queue
      && r.CursorOf(Tags) == Cursor(0, 0) && r.CursorOf(Albums) == Cursor(0, 0) && r.CursorOf(Queue) == s.CursorOf(Queue)
    ensures var (r, out) := s.ApplyKey(Char('q'), rows, fetch, resolve);
      && out == Continue && r.currentView == Queue
      && r.CursorOf(Tags) == Cursor(0, 0) && r.CursorOf(Albums) == Cursor(0, 0) && r.CursorOf(Queue) == s.CursorOf(Queue)
  {
  }

  /** Space appends the recorded tag name, even when it is already selected; `d` empties the selection; `c` leaves. */
  lemma SelectionKeys(s: Snapshot, rows: nat, fetch: Fetch, resolve: Resolve)
    requires rows >= 3
    ensures var (r, out) := s.ApplyKey(Char(' '), rows, fetch, resolve);
      out == Continue && r == s.(selectedTags := s.selectedTags + [s.tags.selectedTagName])
    ensures var (r, out) := s.ApplyKey(Char('d'), rows, fetch, resolve);
      out == Continue && r == s.(selectedTags := [])
    ensures s.ApplyKey(Char('c'), rows, fetch, resolve) == (s, Exit)
  {
  }

  /**
   * Pressed twice on a redrawn tag view, Space selects the same tag twice:
   * the selection is not deduplicated.
   */
  lemma {:induction false} SpaceTwiceSelectsTwice(s: Snapshot, rows: nat, fetch: Fetch, resolve: Resolve)
    requires s.EventDefined(KeyPress(Char(' ')), rows, fetch, resolve)
    requires s.Redraw(rows) == s
    ensures var r1 := s.Step(KeyPress(Char(' ')), rows, fetch, resolve).0;
      r1.EventDefined(KeyPress(Char(' ')), rows, fetch, resolve) &&
      s.Step(KeyPress(Char(' ')), rows, fetch, resolve).1 == Continue &&
      r1.Step(KeyPress(Char(' ')), rows, fetch, resolve).0.selectedTags
        == s.selectedTags + [s.tags.selectedTagName, s.tags.selectedTagName]
  {
    var n := s.tags.selectedTagName;
    var a := s.(selectedTags := s.selectedTags + [n]);
    assert a.Redraw(rows) == a;
    assert s.Step(KeyPress(Char(' ')), rows, fetch, resolve).0 == a;
    var b := a.(selectedTags := a.selectedTags + [n]);
    assert b.Redraw(rows).selectedTags == b.selectedTags;
  }

  /** Down keeps a row that lies on the page on the page; the page advances by at most one, and only within the list. */
  lemma DownKeepsRowOnPage(s: Snapshot, rows: nat, fetch: Fetch, resolve: Resolve)
    requires s.KeyDefined(Down, rows, fetch, resolve) && s.CurrentIdx() < rows - 2
    ensures var (r, out) := s.ApplyKey(Down, rows, fetch, resolve);
      && out != Exit
      && r.currentView == s.currentView
      && r.CurrentIdx() < rows - 2
      && (r.CurrentPage() == s.CurrentPage() || r.CurrentPage() == s.CurrentPage() + 1)
      && (r.CurrentPage() == s.CurrentPage() + 1 ==> r.CurrentPage() * (rows - 2) <= s.Len())
      && (s.CurrentIdx() + 1 < rows - 2 ==> r.CurrentIdx() == s.CurrentIdx() + 1 && r.CurrentPage() == s.CurrentPage())
  {
  }

  /**
   * Down past the last row of a page in the album view always requests the
   * next search page, whether the page advanced or not: the counter goes
   * up by one, the status says so, and the new items are appended.
   */
  lemma PageCrossInAlbumsFetches(s: Snapshot, rows: nat, fetch: Fetch, resolve: Resolve)
    requires s.KeyDefined(Down, rows, fetch, resolve)
    requires s.currentView == Albums && s.CurrentIdx() + 1 > rows - 3
    ensures var (r, out) := s.ApplyKey(Down, rows, fetch, resolve);
      var lp := s.discover.loadedPages + 1;
      && r.discover.loadedPages == lp
      && r.discover.content == s.discover.content + fetch(s.selectedTags[0], lp).GetOr([])
      && r.statusbarText == LoadingMessage && !r.error
      && (out == Failed <==> fetch(s.selectedTags[0], lp).None?)
      && r.CurrentIdx() == 0
  {
    var s1 := s.SetCurrentViewState(s.CurrentIdx() + 1, s.CurrentPage());
    var s2 := s1.SetCurrentViewState(0, s1.CurrentPage());
    assert s2.Uncursored() == s.Uncursored();
    var (r, ok) := s2.SwitchPageUp(rows, fetch);
    assert r.Uncursored().discover.content == r.discover.content;
  }

  /** Outside the album view, Down past the last row of the last page keeps the page and reports the end as an error. */
  lemma PageCrossAtEndReports(s: Snapshot, rows: nat, fetch: Fetch, resolve: Resolve)
    requires rows >= 3 && s.currentView != Albums
    requires s.CurrentIdx() + 1 > rows - 3 && s.CurrentPage() >= s.Len() / (rows - 2)
    ensures var (r, out) := s.ApplyKey(Down, rows, fetch, resolve);
      && out == Continue
      && r.CurrentIdx() == 0 && r.CurrentPage() == s.CurrentPage()
      && r.statusbarText == EndMessage && r.error
      && r.ListLen(s.currentView) == s.Len()
  {
    var s1 := s.SetCurrentViewState(s.CurrentIdx() + 1, s.CurrentPage());
    var s2 := s1.SetCurrentViewState(0, s1.CurrentPage());
    assert s2.Uncursored() == s.Uncursored();
    var (r, ok) := s2.SwitchPageUp(rows, fetch);
    assert r.Uncursored().statusbarText == r.statusbarText;
  }

  /** Up moves one row back on the page; from row 0 it goes to row `rows - 3`, of the previous page when there is one. */
  lemma UpKey(s: Snapshot, rows: nat, fetch: Fetch, resolve: Resolve)
    requires rows >= 3
    ensures var (r, out) := s.ApplyKey(Up, rows, fetch, resolve);
      && out == Continue
      && r.Uncursored() == s.Uncursored()
      && (s.CurrentIdx() > 0 ==> r.CurrentIdx() == s.CurrentIdx() - 1 && r.CurrentPage() == s.CurrentPage())
      && (s.CurrentIdx() == 0 ==>
            && r.CurrentIdx() == rows - 3
            && r.CurrentPage() == if s.CurrentPage() > 0 then s.CurrentPage() - 1 else 0)
  {
    var r := s.PressUp(rows);
    assert r.currentView == r.Uncursored().currentView;
  }

  /** Resizing keeps every list and the page of the active view, and puts its row back to 0. */
  lemma ResizeResetsRow(s: Snapshot, rows: nat, fetch: Fetch, resolve: Resolve)
    requires s.EventDefined(Resize, rows, fetch, resolve)
    ensures var (r, out) := s.Step(Resize, rows, fetch, resolve);
      && out == Continue
      && r.currentView == s.currentView
      && r.CurrentIdx() == 0 && r.CurrentPage() == s.CurrentPage()
      && (forall v :: v != s.currentView ==> r.CursorOf(v) == s.CursorOf(v))
      && r.tags.content == s.tags.content && r.discover.content == s.discover.content
      && r.queue.content == s.queue.content && r.selectedTags == s.selectedTags
  {
  }

  // ----- redraw -----

  /**
   * Redrawing the tag view records the name in row `idx` of page `page`,
   * entry `page * (rows - 2) + idx` of the tag list, when that row exists;
   * nothing else changes.
   */
  lemma RedrawRecordsHighlightedTag(s: Snapshot, rows: nat)
    requires rows >= 3
    ensures var r := s.Redraw(rows); var c := s.CursorOf(Tags); var k := c.page * (rows - 2) + c.idx;
      && r == s.(tags := s.tags.(selectedTagName := r.tags.selectedTagName))
      && (s.displayTags && s.currentView == Tags && c.idx < rows - 2 && k < |s.tags.content| ==>
            r.tags.selectedTagName == s.tags.content[k])
      && (!(s.displayTags && s.currentView == Tags && c.idx < rows - 2 && k < |s.tags.content|) ==> r == s)
  {
    var r := s.Redraw(rows);
    var h := HighlightedRow(s.tags.content, s.CursorOf(Tags), rows - 2);
    if s.displayTags && s.currentView == Tags && h.Some? {
      assert r.tags.selectedTagName == h.value;
    } else {
      assert r == s;
    }
  }

  /** The first redraw after start-up records the first tag. */
  lemma FirstRedrawRecordsFirstTag(tagList: seq<string>, rows: nat)
    requires rows >= 3 && |tagList| > 0
    ensures Initial(tagList).Redraw(rows).tags.selectedTagName == tagList[0]
  {
    RedrawRecordsHighlightedTag(Initial(tagList), rows);
  }

  // ----- the album search -----

  /** Search pages `a + 1 .. c` are pages `a + 1 .. b` followed by pages `b + 1 .. c`. */
  lemma {:induction false} FetchedSplit(fetch: Fetch, tag: string, a: int, b: int, c: int)
    requires a <= b <= c
    ensures Fetched(fetch, tag, a, c) == Fetched(fetch, tag, a, b) + Fetched(fetch, tag, b, c)
    decreases c - b
  {
    if c > b {
      FetchedSplit(fetch, tag, a, b, c - 1);
    }
  }

  /** One successful request of the eager loading: the rest of the loading runs from the state with that page appended. */
  lemma DiscoverWithinStep(s: Snapshot, rows: nat, fetch: Fetch, n: nat, items: seq<Item>)
    requires s.DiscoverEndsWithin(rows, fetch, n) && |s.discover.content| < rows - 2
    requires fetch(s.SearchTag(), s.discover.loadedPages + 1) == Some(items)
    ensures var s2 := s.WithPage(s.discover.loadedPages + 1, items);
      && n > 0 && s2.DiscoverEndsWithin(rows, fetch, n - 1)
      && s2.discover.loadedPages == s.discover.loadedPages + 1
      && s2.discover.content == s.discover.content + items && s2.SearchTag() == s.SearchTag()
      && s.DiscoverWithin(rows, fetch, n) == s2.DiscoverWithin(rows, fetch, n - 1)
  {
    var s2 := s.WithPage(s.discover.loadedPages + 1, items);
    assert s2.selectedTags == s.selectedTags;
  }

  /**
   * The eager loading appends exactly the items of the search pages it
   * requested, numbered on from the counter, and reports a failure exactly
   * when the last request failed.
   */
  lemma {:induction false} DiscoverUntilFullAppendsPages(s: Snapshot, rows: nat, fetch: Fetch, n: nat)
    requires s.DiscoverEndsWithin(rows, fetch, n)
    ensures var (r, ok) := s.DiscoverWithin(rows, fetch, n);
      var tag := s.SearchTag();
      && s.discover.loadedPages <= r.discover.loadedPages
      && r.discover.content == s.discover.content + Fetched(fetch, tag, s.discover.loadedPages, r.discover.loadedPages)
      && (ok <==> r.discover.loadedPages == s.discover.loadedPages || fetch(tag, r.discover.loadedPages).Some?)
    decreases n, 1
  {
    var lp0 := s.discover.loadedPages;
    var tag := s.SearchTag();
    if |s.discover.content| < rows - 2 {
      match fetch(tag, lp0 + 1)
      case None =>
        assert Fetched(fetch, tag, lp0, lp0 + 1) == [];
      case Some(items) =>
        AppendsPagesAfterRequest(s, rows, fetch, n, items);
    } else {
      assert Fetched(fetch, tag, lp0, lp0) == [];
    }
  }

  /** `DiscoverUntilFullAppendsPages` when the first request succeeds with `items`. */
  lemma {:induction false} AppendsPagesAfterRequest(s: Snapshot, rows: nat, fetch: Fetch, n: nat, items: seq<Item>)
    requires s.DiscoverEndsWithin(rows, fetch, n) && |s.discover.content| < rows - 2
    requires fetch(s.SearchTag(), s.discover.loadedPages + 1) == Some(items)
    ensures var (r, ok) := s.DiscoverWithin(rows, fetch, n);
      var tag := s.SearchTag();
      && s.discover.loadedPages <= r.discover.loadedPages
      && r.discover.content == s.discover.content + Fetched(fetch, tag, s.discover.loadedPages, r.discover.loadedPages)
      && (ok <==> r.discover.loadedPages == s.discover.loadedPages || fetch(tag, r.discover.loadedPages).Some?)
    decreases n, 0
  {
    var lp0 := s.discover.loadedPages;
    var tag := s.SearchTag();
    var page := lp0 + 1;
    var s2 := s.WithPage(page, items);
    DiscoverWithinStep(s, rows, fetch, n, items);
    DiscoverUntilFullAppendsPages(s2, rows, fetch, n - 1);
    var (r, ok) := s2.DiscoverWithin(rows, fetch, n - 1);
    assert (r, ok) == s.DiscoverWithin(rows, fetch, n);
    var last := r.discover.loadedPages;
    assert page <= last;
    assert ok <==> last == page || fetch(tag, last).Some?;
    var rest := Fetched(fetch, tag, page, last);
    assert r.discover.content == s2.discover.content + rest;
    assert Fetched(fetch, tag, lp0, last) == items + rest by {
      assert Fetched(fetch, tag, lp0, page) == items;
      FetchedSplit(fetch, tag, lp0, page, last);
    }
    assert s.discover.content + (items + rest) == s2.discover.content + rest;
  }

  /**
   * The eager loading requests no page beyond the first after which the
   * list fills a page of `rows - 2`, and none after a failed request.
   */
  lemma {:induction false} DiscoverUntilFullStopsFirst(s: Snapshot, rows: nat, fetch: Fetch, n: nat)
    requires s.DiscoverEndsWithin(rows, fetch, n)
    ensures var (r, ok) := s.DiscoverWithin(rows, fetch, n);
      var tag := s.SearchTag();
      && (forall p :: s.discover.loadedPages <= p < r.discover.loadedPages ==>
            |s.discover.content + Fetched(fetch, tag, s.discover.loadedPages, p)| < rows - 2)
      && (forall p :: s.discover.loadedPages < p < r.discover.loadedPages ==> fetch(tag, p).Some?)
    decreases n
  {
    var lp0 := s.discover.loadedPages;
    if |s.discover.content| < rows - 2 {
      var tag := s.SearchTag();
      var page := lp0 + 1;
      assert s.discover.content + Fetched(fetch, tag, lp0, lp0) == s.discover.content;
      match fetch(tag, page)
      case None =>
      case Some(items) =>
        var s2 := s.WithPage(page, items);
        DiscoverWithinStep(s, rows, fetch, n, items);
        DiscoverUntilFullStopsFirst(s2, rows, fetch, n - 1);
        var r := s2.DiscoverWithin(rows, fetch, n - 1).0;
        assert Fetched(fetch, tag, lp0, page) == items;
        forall p | page <= p < r.discover.loadedPages
          ensures |s.discover.content + Fetched(fetch, tag, lp0, p)| < rows - 2
        {
          FetchedSplit(fetch, tag, lp0, page, p);
          assert |Fetched(fetch, tag, lp0, p)| == |items| + |Fetched(fetch, tag, page, p)|;
        }
    }
  }

  /**
   * An ordinary search: when the next page already fills the list, the
   * loading ends after that one request, whatever later pages would return.
   */
  lemma OneFullPageEndsLoading(s: Snapshot, rows: nat, fetch: Fetch, items: seq<Item>)
    requires rows >= 3 && |s.selectedTags| > 0 && |s.discover.content| < rows - 2
    requires fetch(s.selectedTags[0], s.discover.loadedPages + 1) == Some(items)
    requires |s.discover.content| + |items| >= rows - 2
    ensures s.CanDiscover(rows, fetch)
    ensures s.DiscoverUntilFull(rows, fetch) == (s.WithPage(s.discover.loadedPages + 1, items), true)
  {
    var s2 := s.WithPage(s.discover.loadedPages + 1, items);
    assert s2.DiscoverEndsWithin(rows, fetch, 0);
    assert s.DiscoverEndsWithin(rows, fetch, 1);
  }

  /** A search that never answers a request with an empty page lets the loading end. */
  lemma {:induction false} ProgressingSearchEnds(s: Snapshot, rows: nat, fetch: Fetch)
    requires rows >= 3 && |s.selectedTags| > 0 && Progresses(fetch, s.selectedTags[0])
    ensures s.DiscoverEndsWithin(rows, fetch, if |s.discover.content| >= rows - 2 then 0 else rows - 2 - |s.discover.content|)
    ensures s.CanDiscover(rows, fetch)
    decreases rows - 2 - |s.discover.content|
  {
    if |s.discover.content| < rows - 2 {
      var page := s.discover.loadedPages + 1;
      var items := fetch(s.selectedTags[0], page);
      if items.Some? {
        assert items.value != [];
        var s2 := s.WithPage(page, items.value);
        ProgressingSearchEnds(s2, rows, fetch);
        var n2 := if |s2.discover.content| >= rows - 2 then 0 else rows - 2 - |s2.discover.content|;
        DiscoverEndsWithinMore(s2, rows, fetch, n2, rows - 2 - |s.discover.content| - 1);
      }
    }
    assert s.DiscoverEndsWithin(rows, fetch, if |s.discover.content| >= rows - 2 then 0 else rows - 2 - |s.discover.content|);
  }

  /** More requests allowed never hurt. */
  lemma {:induction false} DiscoverEndsWithinMore(s: Snapshot, rows: nat, fetch: Fetch, n: nat, m: nat)
    requires n <= m && s.DiscoverEndsWithin(rows, fetch, n)
    ensures s.DiscoverEndsWithin(rows, fetch, m)
    decreases n
  {
    if |s.discover.content| < rows - 2 {
      var page := s.discover.loadedPages + 1;
      var items := fetch(s.selectedTags[0], page);
      if items.Some? {
        DiscoverEndsWithinMore(s.WithPage(page, items.value), rows, fetch, n - 1, m - 1);
      }
    }
  }

  /**
   * A search that answers every request with an empty page keeps a short
   * list short: the code's loop never ends, and the loading has no outcome.
   */
  lemma {:induction false} EmptyPagesNeverEnd(s: Snapshot, rows: nat, fetch: Fetch, n: nat)
    requires |s.discover.content| < rows - 2
    requires |s.selectedTags| > 0 && forall page :: fetch(s.selectedTags[0], page) == Some([])
    ensures !s.DiscoverEndsWithin(rows, fetch, n)
    decreases n
  {
    if n > 0 {
      var page := s.discover.loadedPages + 1;
      var s2 := s.WithPage(page, []);
      assert fetch(s.selectedTags[0], page) == Some([]);
      EmptyPagesNeverEnd(s2, rows, fetch, n - 1);
    }
  }

  /**
   * Enter on the tag view switches to the album view without clearing the
   * albums already loaded; unless a request failed, the list then fills a
   * page and the album in the first row is queued in the same key press,
   * or its failure is reported.
   */
  lemma EnterOnTagsLoadsAndQueues(s: Snapshot, rows: nat, fetch: Fetch, resolve: Resolve)
    requires s.currentView == Tags && s.KeyDefined(Enter, rows, fetch, resolve)
    ensures var (r, out) := s.ApplyKey(Enter, rows, fetch, resolve);
      && out != Exit
      && r.currentView == Albums && r.CursorOf(Albums) == Cursor(0, 0)
      && s.discover.content <= r.discover.content
      && s.queue.content <= r.queue.content
      && (out == Failed ==> r.statusbarText == DiscoveringMessage && r.queue == s.queue)
      && (out == Continue ==>
           && |r.discover.content| >= rows - 2
           && var first := r.discover.content[0];
              && PlayableAt(resolve, first.tralbumUrl)
              && (resolve(first.tralbumUrl).Some? ==>
                    r.statusbarText == DoneMessage && r.error == s.error &&
                    r.queue.content == s.queue.content + Expand(resolve(first.tralbumUrl).value))
              && (resolve(first.tralbumUrl).None? ==>
                    r.statusbarText == LoadFailedMessage(first.title) && r.error && r.queue == s.queue))
  {
    var s1 := s.(statusbarText := DiscoveringMessage).SwitchView(Albums);
    var (s2, ok) := s1.DiscoverUntilFull(rows, fetch);
    if ok {
      var s3 := s2.(statusbarText := DoneMessage);
      assert s3.discover.selectedIdx == 0;
      var r := s3.EnqueueSelected(resolve);
      var url := s3.discover.content[0].tralbumUrl;
      if resolve(url).Some? {
        var album := resolve(url).value;
        assert r.queue.content == s.queue.content + Expand(album);
      }
    }
  }

  /**
   * Enter on the album view queues one entry per track of entry
   * `selectedIdx` of the album list after the queue, or reports the failure.
   */
  lemma EnterOnAlbumsQueues(s: Snapshot, rows: nat, fetch: Fetch, resolve: Resolve)
    requires s.currentView == Albums && s.KeyDefined(Enter, rows, fetch, resolve)
    ensures var (r, out) := s.ApplyKey(Enter, rows, fetch, resolve);
      var item := s.discover.content[s.discover.selectedIdx];
      && out == Continue
      && (resolve(item.tralbumUrl).Some? ==> r == s.(queue := s.queue.(content := s.queue.content + Expand(resolve(item.tralbumUrl).value))))
      && (resolve(item.tralbumUrl).None? ==> r == s.StatusBar(LoadFailedMessage(item.title), true))
  {
    var r := s.EnqueueSelected(resolve);
    var item := s.discover.content[s.discover.selectedIdx];
    if resolve(item.tralbumUrl).Some? {
      assert r.queue.content == s.queue.content + Expand(resolve(item.tralbumUrl).value);
    }
  }

  /**
   * Enter ignores the page: at row 0 of page 1 the highlighted album is
   * entry `rows - 2`, but Enter resolves and queues entry 0.
   */
  lemma EnterIgnoresPage(s: Snapshot, rows: nat, fetch: Fetch, resolve: Resolve)
    requires rows >= 3 && s.currentView == Albums && s.CursorOf(Albums) == Cursor(0, 1)
    requires |s.discover.content| > rows - 2
    requires PlayableAt(resolve, s.discover.content[0].tralbumUrl)
    ensures HighlightedRow(s.discover.content, s.CursorOf(Albums), rows - 2) == Some(s.discover.content[rows - 2])
    ensures var (r, out) := s.ApplyKey(Enter, rows, fetch, resolve);
      var first := s.discover.content[0];
      && out == Continue
      && (resolve(first.tralbumUrl).Some? ==> r.queue.content == s.queue.content + Expand(resolve(first.tralbumUrl).value))
      && (resolve(first.tralbumUrl).None? ==> r.statusbarText == LoadFailedMessage(first.title))
  {
    EnterOnAlbumsQueues(s, rows, fetch, resolve);
  }

  // ----- invariants of the event loop -----

  /** Every row index lies on its page. */
  ghost predicate RowsOnPage(s: Snapshot, cap: nat)
  {
    forall v :: s.CursorOf(v).idx < cap
  }

  /** No page starts past the end of its list (a page may be empty when it starts exactly at the end). */
  ghost predicate PagesWithinLists(s: Snapshot, cap: nat)
  {
    forall v :: s.CursorOf(v).page * cap <= s.ListLen(v)
  }

  /** The recorded and the selected tag names are names from the tag list, or the empty name recorded before the first redraw. */
  ghost predicate NamesFromTagList(s: Snapshot)
  {
    && (s.tags.selectedTagName == "" || s.tags.selectedTagName in s.tags.content)
    && forall i :: 0 <= i < |s.selectedTags| ==> s.selectedTags[i] == "" || s.selectedTags[i] in s.tags.content
  }

  ghost predicate Good(s: Snapshot, cap: nat)
  {
    RowsOnPage(s, cap) && PagesWithinLists(s, cap) && NamesFromTagList(s)
  }

  /** The start-up state satisfies the invariants. */
  lemma InitialGood(tagList: seq<string>, cap: nat)
    requires cap > 0
    ensures Good(Initial(tagList), cap)
  {
    var s := Initial(tagList);
    assert forall v :: s.CursorOf(v) == Cursor(0, 0);
  }

  /** What one event may do to the lists: the tag list stays, the album and queue lists only grow, the counter never goes back. */
  ghost predicate Grows(s: Snapshot, r: Snapshot)
  {
    && r.tags.content == s.tags.content
    && r.displayTags == s.displayTags
    && r.currentlyPlaying == s.currentlyPlaying
    && s.discover.content <= r.discover.content
    && s.queue.content <= r.queue.content
    && s.discover.loadedPages <= r.discover.loadedPages
  }

  lemma RedrawGood(s: Snapshot, rows: nat)
    requires rows >= 3 && Good(s, rows - 2)
    ensures Good(s.Redraw(rows), rows - 2) && Grows(s, s.Redraw(rows))
    ensures s.Redraw(rows).selectedTags == s.selectedTags
  {
    RedrawRecordsHighlightedTag(s, rows);
    var r := s.Redraw(rows);
    assert r == s.(tags := s.tags.(selectedTagName := r.tags.selectedTagName));
    assert forall v :: r.CursorOf(v) == s.CursorOf(v) && r.ListLen(v) == s.ListLen(v);
    assert r.tags.selectedTagName == s.tags.selectedTagName || r.tags.selectedTagName in s.tags.content;
  }

  lemma {:induction false} DownGood(s: Snapshot, rows: nat, fetch: Fetch)
    requires rows >= 3 && Good(s, rows - 2)
    requires s.currentView == Albums && s.CurrentIdx() + 1 > rows - 3 ==> |s.selectedTags| > 0
    ensures Good(s.PressDown(rows, fetch).0, rows - 2) && Grows(s, s.PressDown(rows, fetch).0)
    ensures s.PressDown(rows, fetch).0.selectedTags == s.selectedTags
  {
    var r := s.PressDown(rows, fetch).0;
    if s.CurrentIdx() + 1 < rows - 2 {
      assert r.Uncursored() == s.Uncursored();
      assert r.Uncursored().selectedTags == r.selectedTags;
      assert r.Uncursored().tags.selectedTagName == r.tags.selectedTagName;
      assert forall v :: r.ListLen(v) == s.ListLen(v);
      assert r.CursorOf(s.currentView).page == s.CursorOf(s.currentView).page;
    } else {
      PageCrossGood(s, rows, fetch);
    }
  }

  /** Down past the last row keeps the invariants: the page moves as `PageUp` and the lists only grow. */
  lemma PageCrossGood(s: Snapshot, rows: nat, fetch: Fetch)
    requires rows >= 3 && Good(s, rows - 2) && s.CurrentIdx() + 1 >= rows - 2
    requires s.currentView == Albums ==> |s.selectedTags| > 0
    ensures var r := s.SetCurrentViewState(0, s.CurrentPage()).SwitchPageUp(rows, fetch).0;
      Good(r, rows - 2) && Grows(s, r) && r.selectedTags == s.selectedTags
  {
    var cap := rows - 2;
    var v0 := s.currentView;
    var s2 := s.SetCurrentViewState(0, s.CurrentPage());
    assert s2.Uncursored() == s.Uncursored();
    var (s3, ok) := s2.SwitchPageUp(rows, fetch);
    assert s3.Uncursored().tags == s3.tags.(selectedIdx := 0, selectedPage := 0);
    assert s3.Uncursored().queue == s3.queue.(selectedIdx := 0, selectedPage := 0);
    assert s3.Uncursored().discover == s3.discover.(selectedIdx := 0, selectedPage := 0);
    assert s3.selectedTags == s3.Uncursored().selectedTags;
    assert forall v :: s.ListLen(v) <= s3.ListLen(v);
    forall v
      ensures s3.CursorOf(v).page * cap <= s3.ListLen(v)
    {
      if v == v0 {
        assert s3.CursorOf(v) == PageUp(Cursor(0, s.CursorOf(v).page), s.ListLen(v), cap);
      }
    }
  }

  lemma UpGood(s: Snapshot, rows: nat)
    requires rows >= 3 && Good(s, rows - 2)
    ensures Good(s.PressUp(rows), rows - 2) && Grows(s, s.PressUp(rows))
    ensures s.PressUp(rows).selectedTags == s.selectedTags
  {
    var r := s.PressUp(rows);
    assert s.Uncursored().tags.content == s.tags.content;
    assert r.Uncursored().tags.content == r.tags.content;
    assert r.Uncursored().selectedTags == r.selectedTags;
    assert forall v :: s.ListLen(v) == r.ListLen(v);
    forall v
      ensures r.CursorOf(v).page * (rows - 2) <= r.ListLen(v)
    {
      if v == s.currentView {
        MulMonotone(r.CursorOf(v).page, s.CursorOf(v).page, rows - 2);
      }
    }
  }

  lemma SwitchViewGood(s: Snapshot, to: CurrentView, cap: nat)
    requires cap > 0 && Good(s, cap)
    ensures Good(s.SwitchView(to), cap) && Grows(s, s.SwitchView(to))
  {
    var r := s.SwitchView(to);
    assert forall v :: r.ListLen(v) == s.ListLen(v);
  }

  lemma CharGood(s: Snapshot, c: char, rows: nat, fetch: Fetch, resolve: Resolve)
    requires rows >= 3 && Good(s, rows - 2)
    ensures var r := s.ApplyKey(Char(c), rows, fetch, resolve).0;
      && Good(r, rows - 2) && Grows(s, r)
      && (r.selectedTags == s.selectedTags || r.selectedTags == []
          || r.selectedTags == s.selectedTags + [s.tags.selectedTagName])
  {
    if c == 'q' {
      SwitchViewGood(s, Queue, rows - 2);
    } else if c == ' ' {
      var r := s.(selectedTags := s.selectedTags + [s.tags.selectedTagName]);
      assert forall v :: r.CursorOf(v) == s.CursorOf(v) && r.ListLen(v) == s.ListLen(v);
    } else if c == 'd' {
      var r := s.(selectedTags := []);
      assert forall v :: r.CursorOf(v) == s.CursorOf(v) && r.ListLen(v) == s.ListLen(v);
    }
  }

  lemma EnqueueGood(s: Snapshot, resolve: Resolve, cap: nat)
    requires s.discover.selectedIdx < |s.discover.content|
    requires PlayableAt(resolve, s.discover.content[s.discover.selectedIdx].tralbumUrl)
    requires cap > 0 && Good(s, cap)
    ensures var r := s.EnqueueSelected(resolve); Good(r, cap) && Grows(s, r) && r.selectedTags == s.selectedTags
  {
    var r := s.EnqueueSelected(resolve);
    assert forall v :: r.CursorOf(v) == s.CursorOf(v) && s.ListLen(v) <= r.ListLen(v);
  }

  lemma {:induction false} EnterGood(s: Snapshot, rows: nat, fetch: Fetch, resolve: Resolve)
    requires s.KeyDefined(Enter, rows, fetch, resolve) && Good(s, rows - 2)
    ensures var r := s.ApplyKey(Enter, rows, fetch, resolve).0;
      Good(r, rows - 2) && Grows(s, r) && r.selectedTags == s.selectedTags
  {
    var cap := rows - 2;
    if s.currentView == Tags {
      var s0 := s.(statusbarText := DiscoveringMessage);
      assert forall v :: s0.CursorOf(v) == s.CursorOf(v) && s0.ListLen(v) == s.ListLen(v);
      SwitchViewGood(s0, Albums, cap);
      var s1 := s0.SwitchView(Albums);
      var (s2, ok) := s1.DiscoverUntilFull(rows, fetch);
      assert forall v :: s2.CursorOf(v) == s1.CursorOf(v) && s1.ListLen(v) <= s2.ListLen(v);
      if ok {
        var s3 := s2.(statusbarText := DoneMessage);
        assert forall v :: s3.CursorOf(v) == s2.CursorOf(v) && s3.ListLen(v) == s2.ListLen(v);
        EnqueueGood(s3, resolve, cap);
      }
    } else if s.currentView == Albums {
      EnqueueGood(s, resolve, cap);
    }
  }

  lemma {:induction false} KeyGood(s: Snapshot, key: Key, rows: nat, fetch: Fetch, resolve: Resolve)
    requires s.KeyDefined(key, rows, fetch, resolve) && Good(s, rows - 2)
    ensures var r := s.ApplyKey(key, rows, fetch, resolve).0;
      && Good(r, rows - 2) && Grows(s, r)
      && (r.selectedTags == s.selectedTags || r.selectedTags == []
          || r.selectedTags == s.selectedTags + [s.tags.selectedTagName])
  {
    match key
    case Char(c) => CharGood(s, c, rows, fetch, resolve);
    case Enter => EnterGood(s, rows, fetch, resolve);
    case Tab => SwitchViewGood(s, TabTarget(s.currentView), rows - 2);
    case Down => DownGood(s, rows, fetch);
    case Up => UpGood(s, rows);
    case OtherKey =>
  }

  /**
   * Every event keeps the invariants for the page size it is handled with,
   * keeps the tag list, only grows the album and queue lists, and either
   * keeps, clears or extends the selection by the recorded name.
   */
  lemma {:induction false} StepGood(s: Snapshot, ev: Event, rows: nat, fetch: Fetch, resolve: Resolve)
    requires s.EventDefined(ev, rows, fetch, resolve) && Good(s, rows - 2)
    ensures var r := s.Step(ev, rows, fetch, resolve).0;
      && Good(r, rows - 2) && Grows(s, r)
      && (r.selectedTags == s.selectedTags || r.selectedTags == []
          || r.selectedTags == s.selectedTags + [s.tags.selectedTagName])
  {
    match ev
    case KeyPress(key) =>
      KeyGood(s, key, rows, fetch, resolve);
      var (s1, out) := s.ApplyKey(key, rows, fetch, resolve);
      if out == Continue {
        RedrawGood(s1, rows);
      }
    case Mouse =>
      RedrawGood(s, rows);
    case Resize =>
      RedrawGood(s, rows);
      var s1 := s.Redraw(rows);
      var r := s1.SetCurrentViewState(0, s1.CurrentPage());
      assert r.Uncursored().selectedTags == r.selectedTags;
      assert forall v :: r.ListLen(v) == s1.ListLen(v);
  }

  /** All inputs arrive with the same terminal height. */
  ghost predicate FixedHeight(inputs: seq<Input>, rows: nat)
  {
    forall i :: 0 <= i < |inputs| ==> inputs[i].rows == rows
  }

  /**
   * Over a whole session at a fixed terminal height the invariants hold
   * after every event, the tag list never changes, and the album and queue
   * lists only grow.
   */
  lemma {:induction false} RunGood(s: Snapshot, inputs: seq<Input>, rows: nat, fetch: Fetch, resolve: Resolve)
    requires RunDefined(s, inputs, fetch, resolve) && FixedHeight(inputs, rows) && rows >= 3 && Good(s, rows - 2)
    ensures Good(Run(s, inputs, fetch, resolve).0, rows - 2) && Grows(s, Run(s, inputs, fetch, resolve).0)
    decreases |inputs|
  {
    if |inputs| > 0 {
      StepGood(s, inputs[0].event, rows, fetch, resolve);
      var (s1, out) := s.Step(inputs[0].event, rows, fetch, resolve);
      if out == Continue {
        assert FixedHeight(inputs[1..], rows) by {
          assert forall i :: 0 <= i < |inputs[1..]| ==> inputs[1..][i] == inputs[i + 1];
        }
        RunGood(s1, inputs[1..], rows, fetch, resolve);
      }
    }
  }

  // ----- a whole session -----

  /**
   * Enter on the tag view, when the next search page already fills the
   * list: one request is made, the album in row 0 is queued, and the status
   * says "Done!".
   */
  lemma EnterWithOneFullPage(s: Snapshot, rows: nat, fetch: Fetch, resolve: Resolve, items: seq<Item>)
    requires rows >= 3 && s.currentView == Tags && |s.selectedTags| > 0
    requires |s.discover.content| < rows - 2 <= |s.discover.content| + |items|
    requires fetch(s.selectedTags[0], s.discover.loadedPages + 1) == Some(items)
    requires PlayableAt(resolve, (s.discover.content + items)[0].tralbumUrl)
    requires resolve((s.discover.content + items)[0].tralbumUrl).Some?
    ensures s.KeyDefined(Enter, rows, fetch, resolve)
    ensures var (r, out) := s.ApplyKey(Enter, rows, fetch, resolve);
      && out == Continue && r.currentView == Albums && r.selectedTags == s.selectedTags
      && r.tags.content == s.tags.content && r.tags.selectedTagName == s.tags.selectedTagName && r.displayTags == s.displayTags
      && r.CursorOf(Albums) == Cursor(0, 0) && r.CursorOf(Tags) == Cursor(0, 0)
      && r.discover.content == s.discover.content + items && r.discover.loadedPages == s.discover.loadedPages + 1
      && r.statusbarText == DoneMessage
      && r.queue.content == s.queue.content + Expand(resolve((s.discover.content + items)[0].tralbumUrl).value)
  {
    var a := s.(statusbarText := DiscoveringMessage).SwitchView(Albums);
    OneFullPageEndsLoading(a, rows, fetch, items);
    var b := a.WithPage(a.discover.loadedPages + 1, items);
    assert b.discover.content == s.discover.content + items;
    var album := resolve(b.discover.content[0].tralbumUrl).value;
    var e := b.(statusbarText := DoneMessage).EnqueueSelected(resolve);
    assert e.queue.content == s.queue.content + Expand(album);
  }

  /**
   * On a terminal of four rows, with the tags Jazz and Rock: Down moves the
   * highlight to Rock and Space selects it; neither makes a request.
   */
  lemma DownThenSpaceSelectsSecondTag(fetch: Fetch, resolve: Resolve)
    ensures var start := Initial(["Jazz", "Rock"]).Redraw(4);
      && start.EventDefined(KeyPress(Down), 4, fetch, resolve)
      && var (s1, o1) := start.Step(KeyPress(Down), 4, fetch, resolve);
      && o1 == Continue && s1.EventDefined(KeyPress(Char(' ')), 4, fetch, resolve)
      && var (s2, o2) := s1.Step(KeyPress(Char(' ')), 4, fetch, resolve);
      && o2 == Continue && s2.selectedTags == ["Rock"] && s2.currentView == Tags
      && s2.tags.content == ["Jazz", "Rock"] && s2.discover.content == [] && s2.discover.loadedPages == 0
      && s2.queue.content == []
  {
    var start := Initial(["Jazz", "Rock"]).Redraw(4);
    RedrawRecordsHighlightedTag(Initial(["Jazz", "Rock"]), 4);
    assert start.tags.selectedTagName == "Jazz";
    var s1 := start.Step(KeyPress(Down), 4, fetch, resolve).0;
    var d := start.PressDown(4, fetch).0;
    assert d.CursorOf(Tags) == Cursor(1, 0) && d.currentView == Tags;
    RedrawRecordsHighlightedTag(d, 4);
    assert s1.tags.selectedTagName == "Rock";
  }

  /** A session that continues after its first event is that event followed by the rest of the session. */
  lemma RunPrepend(s: Snapshot, input: Input, rest: seq<Input>, fetch: Fetch, resolve: Resolve)
    requires s.EventDefined(input.event, input.rows, fetch, resolve)
    requires s.Step(input.event, input.rows, fetch, resolve).1 == Continue
    requires RunDefined(s.Step(input.event, input.rows, fetch, resolve).0, rest, fetch, resolve)
    ensures RunDefined(s, [input] + rest, fetch, resolve)
    ensures Run(s, [input] + rest, fetch, resolve) == Run(s.Step(input.event, input.rows, fetch, resolve).0, rest, fetch, resolve)
  {
    assert ([input] + rest)[0] == input && ([input] + rest)[1..] == rest;
  }

  /**
   * Space acts in every view: after Down highlights Rock and Tab leaves the
   * tag view (resetting its cursor), Space still selects Rock.
   */
  lemma SpaceOutsideTagView(fetch: Fetch, resolve: Resolve)
    ensures var start := Initial(["Jazz", "Rock"]).Redraw(4);
      && start.EventDefined(KeyPress(Down), 4, fetch, resolve)
      && var s1 := start.Step(KeyPress(Down), 4, fetch, resolve).0;
      && s1.EventDefined(KeyPress(Tab), 4, fetch, resolve)
      && var s2 := s1.Step(KeyPress(Tab), 4, fetch, resolve).0;
      && s2.EventDefined(KeyPress(Char(' ')), 4, fetch, resolve)
      && var (s3, out) := s2.Step(KeyPress(Char(' ')), 4, fetch, resolve);
      && out == Continue && s3.currentView == Albums && s3.CursorOf(Tags) == Cursor(0, 0)
      && s3.selectedTags == ["Rock"]
  {
    var start := Initial(["Jazz", "Rock"]).Redraw(4);
    RedrawRecordsHighlightedTag(Initial(["Jazz", "Rock"]), 4);
    var s1 := start.Step(KeyPress(Down), 4, fetch, resolve).0;
    var d := start.PressDown(4, fetch).0;
    assert d.CursorOf(Tags) == Cursor(1, 0) && d.currentView == Tags;
    RedrawRecordsHighlightedTag(d, 4);
    assert s1.tags.selectedTagName == "Rock" && s1.selectedTags == [];
    var s2 := s1.Step(KeyPress(Tab), 4, fetch, resolve).0;
    assert s2.currentView == Albums && s2.tags.selectedTagName == "Rock";
  }

  /**
   * On four rows, with Rock selected and nothing loaded yet: Enter loads
   * search page 1 of Rock, which fills the list, and queues both tracks of
   * the album in row 0 with their placeholders.
   */
  lemma EnterLoadsAndQueuesFirstAlbum(s: Snapshot, fetch: Fetch, resolve: Resolve)
    requires s.currentView == Tags && s.selectedTags == ["Rock"] && s.tags.content == ["Jazz", "Rock"]
    requires s.discover.content == [] && s.discover.loadedPages == 0 && s.queue.content == []
    requires fetch("Rock", 1) == Some([Item("First", "Band", "u1"), Item("Second", "Band", "u2")])
    requires resolve("u1") == Some(Album(AlbumCurrent(Some("First"), None),
                                         Some([AlbumTrack(Some("One"), Some(TrackFile("a1"))), AlbumTrack(None, Some(TrackFile("a2")))])))
    ensures s.EventDefined(KeyPress(Enter), 4, fetch, resolve)
    ensures var (r, out) := s.Step(KeyPress(Enter), 4, fetch, resolve);
      && out == Continue && r.selectedTags == ["Rock"] && r.currentView == Albums
      && r.discover.content == [Item("First", "Band", "u1"), Item("Second", "Band", "u2")] && r.discover.loadedPages == 1
      && r.statusbarText == DoneMessage
      && r.queue.content == [QueuedTrack("One", UnknownArtist, "First", "a1"), QueuedTrack(UnknownTitle, UnknownArtist, "First", "a2")]
  {
    var items := [Item("First", "Band", "u1"), Item("Second", "Band", "u2")];
    var album := resolve("u1").value;
    assert s.discover.content + items == items;
    assert Playable(album);
    assert Expand(album) == [QueuedTrack("One", UnknownArtist, "First", "a1"), QueuedTrack(UnknownTitle, UnknownArtist, "First", "a2")];
    EnterWithOneFullPage(s, 4, fetch, resolve, items);
    var e := s.ApplyKey(Enter, 4, fetch, resolve).0;
    assert e.tags.content == ["Jazz", "Rock"];
    assert e.Redraw(4) == e;
  }

  /**
   * On a terminal of four rows (pages of two), with the tags Jazz and
   * Rock, and any search whose page 1 for Rock holds two albums: Down
   * highlights Rock, Space selects it, and Enter loads that page and queues
   * both tracks of the album in the first row, whatever later pages hold.
   */
  lemma SelectTagAndQueueAlbum(fetch: Fetch, resolve: Resolve)
    requires fetch("Rock", 1) == Some([Item("First", "Band", "u1"), Item("Second", "Band", "u2")])
    requires resolve("u1") == Some(Album(AlbumCurrent(Some("First"), None),
                                         Some([AlbumTrack(Some("One"), Some(TrackFile("a1"))), AlbumTrack(None, Some(TrackFile("a2")))])))
    ensures
      var start := Initial(["Jazz", "Rock"]).Redraw(4);
      var inputs := [Input(KeyPress(Down), 80, 4), Input(KeyPress(Char(' ')), 80, 4), Input(KeyPress(Enter), 80, 4)];
      && RunDefined(start, inputs, fetch, resolve)
      && var (r, out) := Run(start, inputs, fetch, resolve);
         && out == Continue
         && r.selectedTags == ["Rock"]
         && r.currentView == Albums
         && r.discover.content == [Item("First", "Band", "u1"), Item("Second", "Band", "u2")] && r.discover.loadedPages == 1
         && r.statusbarText == DoneMessage
         && r.queue.content == [QueuedTrack("One", UnknownArtist, "First", "a1"), QueuedTrack(UnknownTitle, UnknownArtist, "First", "a2")]
  {
    var start := Initial(["Jazz", "Rock"]).Redraw(4);
    var down := Input(KeyPress(Down), 80, 4);
    var space := Input(KeyPress(Char(' ')), 80, 4);
    var enter := Input(KeyPress(Enter), 80, 4);

    DownThenSpaceSelectsSecondTag(fetch, resolve);
    var s1 := start.Step(KeyPress(Down), 4, fetch, resolve).0;
    var s2 := s1.Step(KeyPress(Char(' ')), 4, fetch, resolve).0;
    EnterLoadsAndQueuesFirstAlbum(s2, fetch, resolve);
    var s3 := s2.Step(KeyPress(Enter), 4, fetch, resolve).0;

    assert RunDefined(s3, [], fetch, resolve) && Run(s3, [], fetch, resolve) == (s3, Continue);
    RunPrepend(s2, enter, [], fetch, resolve);
    RunPrepend(s1, space, [enter], fetch, resolve);
    RunPrepend(start, down, [space, enter], fetch, resolve);
  }
}
