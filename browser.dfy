/**
 * The terminal browser as the mutable object it is: a `State` whose
 * methods assign its fields, and the event loop driving it. Every method is
 * proved to move the state exactly as the matching function of module
 * `BrowserModel` says, so the lemmas of module `BrowserProps` carry over.
 */
module Browser {
  import opened Wrappers
  import opened BrowserModel

  class State {
    var statusbarText: string
    var error: bool
    var currentView: CurrentView
    var discover: ListBoxDiscover
    var selectedTags: seq<string>
    var tags: ListBoxTag
    var queue: ListBoxQueue
    var currentlyPlaying: nat
    var displayTags: bool

    /** The fields as one value. */
    function Snap(): Snapshot
      reads this
    {
      Snapshot(statusbarText, error, currentView, discover, selectedTags, tags, queue, currentlyPlaying, displayTags)
    }

    /** The state built at start-up around the loaded tag list. */
    constructor Init(tagList: seq<string>)
      ensures Snap() == Initial(tagList)
    {
      statusbarText := InitialStatus;
      error := false;
      currentView := Tags;
      tags := ListBoxTag([], 0, 0, "");
      queue := ListBoxQueue([], 0, 0);
      currentlyPlaying := 0;
      selectedTags := [];
      discover := ListBoxDiscover([], 0, 0, 0);
      displayTags := true;
      new;
      tags := tags.(content := tagList);
    }

    method SwitchView(to: CurrentView)
      modifies this
      ensures Snap() == old(Snap()).SwitchView(to)
    {
      tags := tags.(selectedIdx := 0);
      tags := tags.(selectedPage := 0);
      discover := discover.(selectedIdx := 0);
      discover := discover.(selectedPage := 0);
      currentView := to;
    }

    method SetCurrentViewState(idx: nat, page: nat)
      modifies this
      ensures Snap() == old(Snap()).SetCurrentViewState(idx, page)
    {
      match currentView
      case Tags =>
        tags := tags.(selectedIdx := idx, selectedPage := page);
      case Albums =>
        discover := discover.(selectedIdx := idx, selectedPage := page);
      case Queue =>
        queue := queue.(selectedIdx := idx, selectedPage := page);
    }

    function GetCurrentIdx(): (r: nat)
      reads this
      ensures r == Snap().CurrentIdx()
    {
      match currentView
      case Tags => tags.selectedIdx
      case Albums => discover.selectedIdx
      case Queue => queue.selectedIdx
    }

    function GetCurrentPage(): (r: nat)
      reads this
      ensures r == Snap().CurrentPage()
    {
      match currentView
      case Tags => tags.selectedPage
      case Albums => discover.selectedPage
      case Queue => queue.selectedPage
    }

    function GetLen(): (r: nat)
      reads this
      ensures r == Snap().Len()
    {
      match currentView
      case Tags => |tags.content|
      case Albums => |discover.content|
      case Queue => |queue.content|
    }

    method StatusBar(message: string, isError: bool)
      modifies this
      ensures Snap() == old(Snap()).StatusBar(message, isError)
    {
      error := isError;
      statusbarText := message;
    }

    /** `switch_page_up`; `ok` is false when the search request failed. */
    method SwitchPageUp(rows: nat, fetch: Fetch) returns (ok: bool)
      requires rows >= 3
      requires currentView == Albums ==> |selectedTags| > 0
      modifies this
      ensures (Snap(), ok) == old(Snap()).SwitchPageUp(rows, fetch)
    {
      var idx := GetCurrentIdx();
      var page := GetCurrentPage();
      if page < GetLen() / (rows - 2) {
        SetCurrentViewState(idx, page + 1);
      } else {
        StatusBar(EndMessage, true);
      }
      ok := true;
      if currentView == Albums {
        StatusBar(LoadingMessage, false);
        discover := discover.(loadedPages := discover.loadedPages + 1);
        var items := fetch(selectedTags[0], discover.loadedPages);
        if items.None? {
          ok := false;
          return;
        }
        discover := discover.(content := discover.content + items.value);
      }
    }

    /** The eager loading after Enter on the tag view; `ok` is false when a search request failed. */
    method DiscoverUntilFull(rows: nat, fetch: Fetch) returns (ok: bool)
      requires Snap().CanDiscover(rows, fetch)
      modifies this
      ensures (Snap(), ok) == old(Snap()).DiscoverUntilFull(rows, fetch)
    {
      ok := true;
      ghost var n :| Snap().DiscoverEndsWithin(rows, fetch, n);
      while |discover.content| < rows - 2
        invariant Snap().DiscoverEndsWithin(rows, fetch, n)
        invariant Snap().DiscoverWithin(rows, fetch, n) == old(Snap()).DiscoverUntilFull(rows, fetch)
        decreases n
      {
        discover := discover.(loadedPages := discover.loadedPages + 1);
        var items := fetch(selectedTags[0], discover.loadedPages);
        if items.None? {
          ok := false;
          return;
        }
        discover := discover.(content := discover.content + items.value);
        n := n - 1;
      }
    }

    /** Pushes one queue entry per track of the album. */
    method QueueAlbum(album: Album)
      requires Playable(album)
      modifies this
      ensures Snap() == old(Snap()).(queue := old(queue).(content := old(queue.content) + Expand(album)))
    {
      var tracks := album.trackinfo.value;
      for i := 0 to |tracks|
        invariant Snap() == old(Snap()).(queue := old(queue).(content := old(queue.content) + Expand(album)[..i]))
      {
        var entry := QueueEntry(album, tracks[i]);
        assert Expand(album)[..i + 1] == Expand(album)[..i] + [entry];
        queue := queue.(content := queue.content + [entry]);
      }
      assert Expand(album)[..|tracks|] == Expand(album);
    }

    /** Enter on the album view: queue entry `selectedIdx` of the album list, or report that it could not be loaded. */
    method EnqueueSelected(resolve: Resolve)
      requires discover.selectedIdx < |discover.content|
      requires PlayableAt(resolve, discover.content[discover.selectedIdx].tralbumUrl)
      modifies this
      ensures Snap() == old(Snap()).EnqueueSelected(resolve)
    {
      var isAlbum := resolve(discover.content[discover.selectedIdx].tralbumUrl);
      match isAlbum
      case Some(album) =>
        QueueAlbum(album);
      case None =>
        StatusBar(LoadFailedMessage(discover.content[discover.selectedIdx].title), true);
    }

    /** Enter: on the tag view the eager loading, which falls through to queueing on the album view. */
    method PressEnter(rows: nat, fetch: Fetch, resolve: Resolve) returns (out: Outcome)
      requires Snap().KeyDefined(Enter, rows, fetch, resolve)
      modifies this
      ensures (Snap(), out) == old(Snap()).ApplyKey(Enter, rows, fetch, resolve)
    {
      out := Continue;
      if currentView == Tags {
        statusbarText := DiscoveringMessage;
        SwitchView(Albums);
        var ok := DiscoverUntilFull(rows, fetch);
        if !ok {
          out := Failed;
          return;
        }
        statusbarText := DoneMessage;
        assert discover.selectedIdx == 0;
      }
      if currentView == Albums {
        EnqueueSelected(resolve);
      }
    }

    /** Down: next row; past row `rows - 3`, row 0 and `switch_page_up`. */
    method PressDown(rows: nat, fetch: Fetch) returns (out: Outcome)
      requires rows >= 3
      requires currentView == Albums && GetCurrentIdx() + 1 > rows - 3 ==> |selectedTags| > 0
      modifies this
      ensures (Snap(), out) == old(Snap()).PressDown(rows, fetch)
    {
      out := Continue;
      SetCurrentViewState(GetCurrentIdx() + 1, GetCurrentPage());
      if GetCurrentIdx() > rows - 3 {
        SetCurrentViewState(0, GetCurrentPage());
        var ok := SwitchPageUp(rows, fetch);
        if !ok {
          out := Failed;
        }
      }
    }

    /** Up: previous row; from row 0 the row `rows - 3`, one page back if the page is not 0. */
    method PressUp(rows: nat)
      requires rows >= 3
      modifies this
      ensures Snap() == old(Snap()).PressUp(rows)
    {
      if GetCurrentIdx() > 0 {
        SetCurrentViewState(GetCurrentIdx() - 1, GetCurrentPage());
      } else {
        if GetCurrentPage() > 0 {
          SetCurrentViewState(GetCurrentIdx(), GetCurrentPage() - 1);
        }
        SetCurrentViewState(rows - 3, GetCurrentPage());
      }
    }

    /** The handling of one key before the redraw; the outcome says whether the loop goes on. */
    method HandleKey(key: Key, rows: nat, fetch: Fetch, resolve: Resolve) returns (out: Outcome)
      requires Snap().KeyDefined(key, rows, fetch, resolve)
      modifies this
      ensures (Snap(), out) == old(Snap()).ApplyKey(key, rows, fetch, resolve)
    {
      out := Continue;
      match key
      case Char(c) =>
        if c == 'c' {
          out := Exit;
        } else if c == 'd' {
          selectedTags := [];
        } else if c == 'q' {
          SwitchView(Queue);
        } else if c == ' ' {
          selectedTags := selectedTags + [tags.selectedTagName];
        }
      case Enter =>
        out := PressEnter(rows, fetch, resolve);
      case Tab =>
        if currentView == Albums {
          SwitchView(Tags);
        } else {
          SwitchView(Albums);
        }
      case Down =>
        out := PressDown(rows, fetch);
      case Up =>
        PressUp(rows);
      case OtherKey =>
    }

    /**
     * The state side of `redraw`: walking the tag pages of `rows - 2`
     * entries, record the name in the highlighted row of the tag view.
     * Returns the status bar row for a terminal of `cols` columns.
     */
    method Redraw(rows: nat, cols: nat) returns (statusLine: string)
      requires rows >= 3 && |tags.content| > 0
      modifies this
      ensures Snap() == old(Snap()).Redraw(rows)
      ensures statusLine == StatusLine(statusbarText, cols)
    {
      var cap := rows - 2;
      if displayTags {
        var pages := Chunks(tags.content, cap);
        var i := 0;
        while i < |pages|
          invariant 0 <= i <= |pages|
          invariant Snap() == old(Snap()).(tags := old(tags).(selectedTagName := tags.selectedTagName))
          invariant tags.selectedTagName ==
            if currentView == Tags && tags.selectedPage < i && tags.selectedIdx < |pages[tags.selectedPage]|
            then pages[tags.selectedPage][tags.selectedIdx] else old(tags.selectedTagName)
        {
          if i == tags.selectedPage {
            var v := pages[i];
            for index := 0 to |v|
              invariant Snap() == old(Snap()).(tags := old(tags).(selectedTagName := tags.selectedTagName))
              invariant tags.selectedTagName ==
                if currentView == Tags && tags.selectedIdx < index then v[tags.selectedIdx] else old(tags.selectedTagName)
            {
              if index == tags.selectedIdx && currentView == Tags {
                tags := tags.(selectedTagName := v[index]);
              }
            }
          }
          i := i + 1;
        }
      }
      var fixedSpace := cols - ByteLen(statusbarText) - 28;
      if fixedSpace < 0 {
        fixedSpace := 0;
      }
      statusLine := StatusPrefix + statusbarText + Spaces(fixedSpace);
    }

    /** One pass of the event loop. */
    method HandleEvent(ev: Event, cols: nat, rows: nat, fetch: Fetch, resolve: Resolve) returns (out: Outcome)
      requires Snap().EventDefined(ev, rows, fetch, resolve)
      modifies this
      ensures (Snap(), out) == old(Snap()).Step(ev, rows, fetch, resolve)
    {
      out := Continue;
      match ev
      case KeyPress(key) =>
        out := HandleKey(key, rows, fetch, resolve);
        if out == Continue {
          var _ := Redraw(rows, cols);
        }
      case Mouse =>
        var _ := Redraw(rows, cols);
      case Resize =>
        var _ := Redraw(rows, cols);
        SetCurrentViewState(0, GetCurrentPage());
    }
  }

  /**
   * `loadinterface` after the tag list is loaded: build the state, draw it,
   * then handle the inputs one by one until `c`, a failed request, or the
   * end of the inputs.
   */
  method LoadInterface(tagList: seq<string>, cols: nat, rows: nat, inputs: seq<Input>, fetch: Fetch, resolve: Resolve)
    returns (state: State, out: Outcome)
    requires rows >= 3 && |tagList| > 0
    requires RunDefined(Initial(tagList).Redraw(rows), inputs, fetch, resolve)
    ensures (state.Snap(), out) == Run(Initial(tagList).Redraw(rows), inputs, fetch, resolve)
  {
    state := new State.Init(tagList);
    var _ := state.Redraw(rows, cols);
    out := EventLoop(state, inputs, fetch, resolve);
  }

  /** The event loop: handle the inputs one by one until `c`, a failed request, or the end of the inputs. */
  method EventLoop(state: State, inputs: seq<Input>, fetch: Fetch, resolve: Resolve) returns (out: Outcome)
    requires RunDefined(state.Snap(), inputs, fetch, resolve)
    modifies state
    ensures (state.Snap(), out) == Run(old(state.Snap()), inputs, fetch, resolve)
  {
    out := Continue;
    var i := 0;
    while i < |inputs|
      invariant 0 <= i <= |inputs| && out == Continue
      invariant RunDefined(state.Snap(), inputs[i..], fetch, resolve)
      invariant Run(state.Snap(), inputs[i..], fetch, resolve) == Run(old(state.Snap()), inputs, fetch, resolve)
    {
      var input := inputs[i];
      assert inputs[i..][0] == input && inputs[i..][1..] == inputs[i + 1..];
      RunFirst(state.Snap(), inputs[i..], fetch, resolve);
      out := state.HandleEvent(input.event, input.cols, input.rows, fetch, resolve);
      if out != Continue {
        return;
      }
      i := i + 1;
    }
    assert inputs[i..] == [];
  }
}
