/**
 * The terminal browser of the command-line interface, as values: three list
 * views (tags, albums of the selected tag, play queue), each with a cursor
 * made of a row index and a page, sharing one status line. Pages hold
 * `rows - 2` entries, `rows` being the terminal height. The functions here
 * are the specification of the `State` class of module `Browser`; the
 * lemmas state what the key handling does to cursors, pages and lists.
 */
module BrowserModel {
  import opened Wrappers
  import opened Text

  datatype CurrentView = Albums | Tags | Queue

  /** An album card of a tag's discover page, with the fields the interface uses. */
  datatype Item = Item(title: string, artist: string, tralbumUrl: string)

  /** A playable queue entry. */
  datatype QueuedTrack = QueuedTrack(title: string, artist: string, album: string, audioUrl: string)

  /** What resolving an album page yields: album metadata and its track list. */
  datatype AlbumCurrent = AlbumCurrent(title: Option<string>, artist: Option<string>)
  datatype TrackFile = TrackFile(mp3128: string)
  datatype AlbumTrack = AlbumTrack(title: Option<string>, file: Option<TrackFile>)
  datatype Album = Album(current: AlbumCurrent, trackinfo: Option<seq<AlbumTrack>>)

  datatype ListBoxTag = ListBoxTag(content: seq<string>, selectedIdx: nat, selectedPage: nat, selectedTagName: string)
  datatype ListBoxDiscover = ListBoxDiscover(content: seq<Item>, selectedIdx: nat, selectedPage: nat, loadedPages: int)
  datatype ListBoxQueue = ListBoxQueue(content: seq<QueuedTrack>, selectedIdx: nat, selectedPage: nat)

  /** A view's highlighted row: index within the page, and page. */
  datatype Cursor = Cursor(idx: nat, page: nat)

  /** The album search: one page of a tag's albums, `None` when the request fails. */
  type Fetch = (string, int) -> Option<seq<Item>>
  /** Album resolution: the album behind an album URL, `None` when it cannot be loaded. */
  type Resolve = string -> Option<Album>

  /** Keys without modifiers; any other key event is `OtherKey`. */
  datatype Key = Char(c: char) | Enter | Tab | Up | Down | OtherKey
  datatype Event = KeyPress(key: Key) | Mouse | Resize
  /** How the handling of one event ends: wait for the next, leave the loop, or return an error. */
  datatype Outcome = Continue | Exit | Failed

  const InitialStatus: string := "[Space]: Select Tags [Enter]: Load tag albums"
  const EndMessage: string := "You aready scrolled to end!"
  const LoadingMessage: string := "Loading next page..."
  const DiscoveringMessage: string := "Discovering"
  const DoneMessage: string := "Done!"
  const UnknownAlbum: string := "Unknown album"
  const UnknownArtist: string := "Unknown artist"
  const UnknownTitle: string := "Unknown track title"

  function LoadFailedMessage(title: string): string
  {
    "Something went wrong while loading " + title
  }

  // ----- cursor arithmetic -----

  /** The cursor part of `switch_page_up`: one page on, unless `page < len / cap` fails. */
  function PageUp(c: Cursor, len: nat, cap: nat): (r: Cursor)
    requires cap > 0
    ensures r.idx == c.idx
    ensures r.page == c.page || r.page == c.page + 1
    ensures r.page == c.page + 1 ==> r.page * cap <= len
  {
    if c.page < len / cap then
      PageUpStaysWithinLoaded(c.page, len, cap);
      c.(page := c.page + 1)
    else c
  }

  /** Advancing is allowed only to a page that starts at or before the end of the list. */
  lemma PageUpStaysWithinLoaded(page: nat, len: nat, cap: nat)
    requires cap > 0 && page < len / cap
    ensures (page + 1) * cap <= len
  {
    assert (page + 1) * cap <= (len / cap) * cap by {
      MulMonotone(page + 1, len / cap, cap);
    }
  }

  lemma MulMonotone(a: nat, b: nat, c: nat)
    requires a <= b
    ensures a * c <= b * c
  {
  }

  /** The cursor effect of Down: next row, or the first row after a page-cross. */
  function DownCursor(c: Cursor, len: nat, cap: nat): (r: Cursor)
    requires cap > 0
    ensures c.idx < cap ==> r.idx < cap
    ensures c.idx + 1 < cap ==> r == Cursor(c.idx + 1, c.page)
    ensures c.idx + 1 >= cap ==> r.idx == 0 && r == PageUp(Cursor(0, c.page), len, cap)
    ensures r.page == c.page || r.page == c.page + 1
  {
    if c.idx + 1 > cap - 1 then PageUp(Cursor(0, c.page), len, cap) else Cursor(c.idx + 1, c.page)
  }

  /** The cursor effect of Up: previous row; from row 0 the last row, of the previous page if there is one. */
  function UpCursor(c: Cursor, cap: nat): (r: Cursor)
    requires cap > 0
    ensures r.idx < cap || r.idx == c.idx - 1
    ensures c.idx > 0 ==> r == Cursor(c.idx - 1, c.page)
    ensures c.idx == 0 ==> r.idx == cap - 1 && r.page == (if c.page > 0 then c.page - 1 else 0)
  {
    if c.idx > 0 then Cursor(c.idx - 1, c.page)
    else Cursor(cap - 1, if c.page > 0 then c.page - 1 else 0)
  }

  /** Up undoes Down, also across a page-cross that advanced the page. */
  lemma UpUndoesDown(c: Cursor, len: nat, cap: nat)
    requires cap > 0 && c.idx < cap
    requires c.idx + 1 < cap || c.page < len / cap
    ensures UpCursor(DownCursor(c, len, cap), cap) == c
  {
  }

  /** Down undoes Up within a page. */
  lemma DownUndoesUp(c: Cursor, len: nat, cap: nat)
    requires cap > 0 && 0 < c.idx < cap
    ensures DownCursor(UpCursor(c, cap), len, cap) == c
  {
  }

  /** The cursor after `n` presses of Down in a view whose list does not grow. */
  function Downs(c: Cursor, n: nat, len: nat, cap: nat): Cursor
    requires cap > 0
  {
    if n == 0 then c else DownCursor(Downs(c, n - 1, len, cap), len, cap)
  }

  /**
   * However often Down is pressed, the row stays on the page, the page
   * never goes back, and it advances at most once per press.
   */
  lemma {:induction false} DownsStayOnPage(c: Cursor, n: nat, len: nat, cap: nat)
    requires cap > 0 && c.idx < cap
    ensures Downs(c, n, len, cap).idx < cap
    ensures c.page <= Downs(c, n, len, cap).page <= c.page + n
  {
    if n > 0 {
      DownsStayOnPage(c, n - 1, len, cap);
    }
  }

  // ----- pages as `chunks(rows - 2)` -----

  function Min(a: int, b: int): int
  {
    if a < b then a else b
  }

  /** `content.chunks(cap)`: consecutive pieces of `cap` entries, the last one possibly shorter. */
  function Chunks<T>(s: seq<T>, cap: nat): (r: seq<seq<T>>)
    requires cap > 0
    ensures |r| == 0 <==> |s| == 0
    decreases |s|
  {
    if |s| == 0 then [] else if |s| <= cap then [s] else [s[..cap]] + Chunks(s[cap..], cap)
  }

  /** The chunks, one after the other, are the list again, and each holds between 1 and `cap` entries. */
  lemma {:induction false} ChunksConcat<T>(s: seq<T>, cap: nat)
    requires cap > 0
    ensures Concat(Chunks(s, cap)) == s
    ensures forall i :: 0 <= i < |Chunks(s, cap)| ==> 0 < |Chunks(s, cap)[i]| <= cap
    decreases |s|
  {
    if |s| > cap {
      ChunksConcat(s[cap..], cap);
      var r := Chunks(s, cap);
      assert r == [s[..cap]] + Chunks(s[cap..], cap);
      assert r[1..] == Chunks(s[cap..], cap);
      assert s[..cap] + s[cap..] == s;
    }
  }

  /** The pieces one after the other. */
  function Concat<T>(pieces: seq<seq<T>>): seq<T>
  {
    if |pieces| == 0 then [] else pieces[0] + Concat(pieces[1..])
  }

  /** Chunk `i` exists exactly when `i * cap < |s|`, and holds the entries from `i * cap` on. */
  lemma {:induction false} ChunkAt<T>(s: seq<T>, cap: nat, i: nat)
    requires cap > 0
    ensures i < |Chunks(s, cap)| <==> i * cap < |s|
    ensures i < |Chunks(s, cap)| ==> Chunks(s, cap)[i] == s[i * cap .. Min(|s|, i * cap + cap)]
    decreases |s|
  {
    if i == 0 {
      assert i * cap == 0;
    } else if |s| <= cap {
      MulMonotone(1, i, cap);
    } else {
      var rest := s[cap..];
      ChunkAt(rest, cap, i - 1);
      var k := (i - 1) * cap;
      assert i * cap == k + cap by {
        MulSucc(i - 1, cap);
      }
      assert Chunks(s, cap) == [s[..cap]] + Chunks(rest, cap);
      if i < |Chunks(s, cap)| {
        assert Chunks(s, cap)[i] == Chunks(rest, cap)[i - 1];
        assert rest[k .. Min(|rest|, k + cap)] == s[k + cap .. Min(|s|, k + cap + cap)];
      }
    }
  }

  lemma MulSucc(a: nat, c: nat)
    ensures (a + 1) * c == a * c + c
  {
  }

  /**
   * The entry `redraw` highlights for cursor `c`: row `c.idx` of chunk
   * `c.page`, if both exist. That is entry `page * cap + idx` of the list,
   * when the row lies on the page and in the list.
   */
  function HighlightedRow<T>(s: seq<T>, c: Cursor, cap: nat): (r: Option<T>)
    requires cap > 0
    ensures r == if c.idx < cap && c.page * cap + c.idx < |s| then Some(s[c.page * cap + c.idx]) else None
  {
    var pages := Chunks(s, cap);
    ChunkAt(s, cap, c.page);
    if c.page < |pages| && c.idx < |pages[c.page]| then Some(pages[c.page][c.idx]) else None
  }

  /**
   * When the list fills exactly two pages, Down past the last row of the
   * second page still advances, onto a third page with no rows.
   */
  lemma PageUpOntoEmptyPage<T>(s: seq<T>, cap: nat, idx: nat)
    requires cap > 0 && |s| == 2 * cap
    ensures DownCursor(Cursor(cap - 1, 1), |s|, cap) == Cursor(0, 2)
    ensures HighlightedRow(s, Cursor(idx, 2), cap).None?
  {
    assert (2 * cap) / cap == 2;
  }

  // ----- the status line -----

  /** The fixed text before the status message; 28 characters. */
  const StatusPrefix: string := "\U{25B6} BandcampOnlinePlayer RS | "

  /** Bytes of a character in UTF-8, which `String::len` counts. */
  function Utf8Len(c: char): nat
  {
    if c as int < 0x80 then 1 else if c as int < 0x800 then 2 else if c as int < 0x1_0000 then 3 else 4
  }

  /** `s.len()`: the length in UTF-8 bytes. */
  function ByteLen(s: string): nat
  {
    if |s| == 0 then 0 else Utf8Len(s[0]) + ByteLen(s[1..])
  }

  predicate IsAscii(s: string)
  {
    forall i :: 0 <= i < |s| ==> s[i] as int < 0x80
  }

  lemma {:induction false} AsciiByteLen(s: string)
    requires IsAscii(s)
    ensures ByteLen(s) == |s|
  {
    if |s| > 0 {
      AsciiByteLen(s[1..]);
    }
  }

  function Spaces(n: nat): (r: string)
    ensures |r| == n && forall i :: 0 <= i < n ==> r[i] == ' '
  {
    seq(n, _ => ' ')
  }

  /** The status bar row: prefix, message, and blanks up to `cols - len - 28` (none when negative). */
  function StatusLine(text: string, cols: nat): (r: string)
    ensures StatusPrefix + text <= r
    ensures |r| == 28 + |text| + if cols < ByteLen(text) + 28 then 0 else cols - ByteLen(text) - 28
  {
    var fixedSpace := cols - ByteLen(text) - 28;
    StatusPrefix + text + Spaces(if fixedSpace < 0 then 0 else fixedSpace)
  }

  /** The status bar shows the whole message and, for an ASCII message, exactly fills a row of `cols` when it fits. */
  lemma StatusLineFits(text: string, cols: nat)
    ensures StatusLine(text, cols)[..|StatusPrefix| + |text|] == StatusPrefix + text
    ensures forall i :: |StatusPrefix| + |text| <= i < |StatusLine(text, cols)| ==> StatusLine(text, cols)[i] == ' '
    ensures IsAscii(text) ==> |StatusLine(text, cols)| == if cols < 28 + |text| then 28 + |text| else cols
  {
    assert |StatusPrefix| == 28;
    if IsAscii(text) {
      AsciiByteLen(text);
    }
  }

  // ----- queue expansion -----

  /** The album can be expanded without a panic: it has a track list and every track a file. */
  predicate Playable(album: Album)
  {
    album.trackinfo.Some? && forall i :: 0 <= i < |album.trackinfo.value| ==> album.trackinfo.value[i].file.Some?
  }

  /** Resolving `url` does not yield an album whose expansion would panic. */
  predicate PlayableAt(resolve: Resolve, url: string)
  {
    resolve(url).Some? ==> Playable(resolve(url).value)
  }

  /** The queue entry for one track: missing names become the placeholders. */
  function QueueEntry(album: Album, track: AlbumTrack): (r: QueuedTrack)
    requires track.file.Some?
    ensures r.audioUrl == track.file.value.mp3128
    ensures r.title == (if track.title.Some? then track.title.value else UnknownTitle)
    ensures r.artist == (if album.current.artist.Some? then album.current.artist.value else UnknownArtist)
    ensures r.album == (if album.current.title.Some? then album.current.title.value else UnknownAlbum)
  {
    QueuedTrack(
      title := track.title.GetOr(UnknownTitle),
      artist := album.current.artist.GetOr(UnknownArtist),
      album := album.current.title.GetOr(UnknownAlbum),
      audioUrl := track.file.value.mp3128)
  }

  /** One queue entry per track of the album, in track order. */
  function Expand(album: Album): (r: seq<QueuedTrack>)
    requires Playable(album)
    ensures |r| == |album.trackinfo.value|
  {
    var tracks := album.trackinfo.value;
    seq(|tracks|, i requires 0 <= i < |tracks| => QueueEntry(album, tracks[i]))
  }

  /** Entry `i` carries track `i`'s title and file and the album's names, each replaced by its placeholder when missing. */
  lemma ExpandEntries(album: Album, i: nat)
    requires Playable(album) && i < |album.trackinfo.value|
    ensures var e := Expand(album)[i]; var t := album.trackinfo.value[i];
      && (t.title.Some? ==> e.title == t.title.value) && (t.title.None? ==> e.title == UnknownTitle)
      && (album.current.artist.Some? ==> e.artist == album.current.artist.value)
      && (album.current.artist.None? ==> e.artist == UnknownArtist)
      && (album.current.title.Some? ==> e.album == album.current.title.value)
      && (album.current.title.None? ==> e.album == UnknownAlbum)
      && e.audioUrl == t.file.value.mp3128
  {
  }

  // ----- the album search -----

  /** A successful search never returns an empty page for `tag` (what the eager loading needs to end). */
  ghost predicate Progresses(fetch: Fetch, tag: string)
  {
    forall page :: fetch(tag, page) != Some([])
  }

  /** The items of search pages `from + 1 .. to` for `tag`, in page order (a failed page adds none). */
  function Fetched(fetch: Fetch, tag: string, from: int, to: int): seq<Item>
    decreases to - from
  {
    if to <= from then [] else Fetched(fetch, tag, from, to - 1) + fetch(tag, to).GetOr([])
  }

  // ----- the whole state -----

  datatype Snapshot = Snapshot(
    statusbarText: string,
    error: bool,
    currentView: CurrentView,
    discover: ListBoxDiscover,
    selectedTags: seq<string>,
    tags: ListBoxTag,
    queue: ListBoxQueue,
    currentlyPlaying: nat,
    displayTags: bool)
  {
    /** The cursor of view `v`. */
    function CursorOf(v: CurrentView): Cursor
    {
      match v
      case Tags => Cursor(tags.selectedIdx, tags.selectedPage)
      case Albums => Cursor(discover.selectedIdx, discover.selectedPage)
      case Queue => Cursor(queue.selectedIdx, queue.selectedPage)
    }

    /** The state with every cursor at (0, 0): what stays when only cursors move. */
    function Uncursored(): Snapshot
    {
      this.(tags := tags.(selectedIdx := 0, selectedPage := 0),
            discover := discover.(selectedIdx := 0, selectedPage := 0),
            queue := queue.(selectedIdx := 0, selectedPage := 0))
    }

    /** The length of view `v`'s list. */
    function ListLen(v: CurrentView): nat
    {
      match v
      case Tags => |tags.content|
      case Albums => |discover.content|
      case Queue => |queue.content|
    }

    /** `get_current_idx`: the row of the active view. */
    function CurrentIdx(): (r: nat)
      ensures r == CursorOf(currentView).idx
    {
      match currentView
      case Tags => tags.selectedIdx
      case Albums => discover.selectedIdx
      case Queue => queue.selectedIdx
    }

    /** `get_current_page`: the page of the active view. */
    function CurrentPage(): (r: nat)
      ensures r == CursorOf(currentView).page
    {
      match currentView
      case Tags => tags.selectedPage
      case Albums => discover.selectedPage
      case Queue => queue.selectedPage
    }

    /** `get_len`: the length of the active view's list. */
    function Len(): (r: nat)
      ensures r == ListLen(currentView)
    {
      match currentView
      case Tags => |tags.content|
      case Albums => |discover.content|
      case Queue => |queue.content|
    }

    /** `switch_view`: tag and album cursors back to (0, 0), queue cursor kept, `to` active. */
    function SwitchView(to: CurrentView): (r: Snapshot)
      ensures r.currentView == to
      ensures r.CursorOf(Tags) == Cursor(0, 0) && r.CursorOf(Albums) == Cursor(0, 0)
      ensures r.CursorOf(Queue) == CursorOf(Queue)
      ensures r.Uncursored() == Uncursored().(currentView := to)
    {
      this.(tags := tags.(selectedIdx := 0, selectedPage := 0),
            discover := discover.(selectedIdx := 0, selectedPage := 0),
            currentView := to)
    }

    /** `set_current_view_state`: the active view's cursor becomes (idx, page); nothing else changes. */
    function SetCurrentViewState(idx: nat, page: nat): (r: Snapshot)
      ensures r.CursorOf(currentView) == Cursor(idx, page)
      ensures forall v :: v != currentView ==> r.CursorOf(v) == CursorOf(v)
      ensures r.Uncursored() == Uncursored()
      ensures r.currentView == currentView && r.CurrentIdx() == idx && r.CurrentPage() == page && r.Len() == Len()
    {
      match currentView
      case Tags => this.(tags := tags.(selectedIdx := idx, selectedPage := page))
      case Albums => this.(discover := discover.(selectedIdx := idx, selectedPage := page))
      case Queue => this.(queue := queue.(selectedIdx := idx, selectedPage := page))
    }

    /** `status_bar`. */
    function StatusBar(message: string, isError: bool): (r: Snapshot)
      ensures r.statusbarText == message && r.error == isError
      ensures r.currentView == currentView && r.selectedTags == selectedTags
      ensures forall v :: r.CursorOf(v) == CursorOf(v) && r.ListLen(v) == ListLen(v)
      ensures r.tags == tags && r.discover == discover && r.queue == queue
      ensures r.currentlyPlaying == currentlyPlaying && r.displayTags == displayTags
    {
      this.(statusbarText := message, error := isError)
    }

    /**
     * `switch_page_up`: one page on while `page < len / (rows - 2)`, or the
     * end message; in the album view then (always) the next search page,
     * numbered by the incremented counter, is requested for the first
     * selected tag and appended. The flag is false when the request failed.
     */
    function SwitchPageUp(rows: nat, fetch: Fetch): (r: (Snapshot, bool))
      requires rows >= 3
      requires currentView == Albums ==> |selectedTags| > 0
      ensures r.0.currentView == currentView
      ensures r.0.CursorOf(currentView) == PageUp(CursorOf(currentView), Len(), rows - 2)
      ensures forall v :: v != currentView ==> r.0.CursorOf(v) == CursorOf(v)
      ensures currentView != Albums ==>
        && r.1
        && r.0.Uncursored() ==
           if CurrentPage() < Len() / (rows - 2) then Uncursored() else Uncursored().StatusBar(EndMessage, true)
      ensures currentView == Albums ==>
        var lp := discover.loadedPages + 1;
        && r.1 == fetch(selectedTags[0], lp).Some?
        && r.0.Uncursored() == Uncursored().StatusBar(LoadingMessage, false).(discover :=
            Uncursored().discover.(loadedPages := lp, content := discover.content + fetch(selectedTags[0], lp).GetOr([])))
    {
      var idx := CurrentIdx();
      var page := CurrentPage();
      var s1 := if page < Len() / (rows - 2) then SetCurrentViewState(idx, page + 1) else StatusBar(EndMessage, true);
      if s1.currentView == Albums then
        var s2 := s1.StatusBar(LoadingMessage, false);
        var s3 := s2.(discover := s2.discover.(loadedPages := s2.discover.loadedPages + 1));
        match fetch(s3.selectedTags[0], s3.discover.loadedPages)
        case None => (s3, false)
        case Some(items) => (s3.(discover := s3.discover.(content := s3.discover.content + items)), true)
      else
        (s1, true)
    }

    /** Down: next row; past row `rows - 3`, row 0 and `switch_page_up`. */
    function PressDown(rows: nat, fetch: Fetch): (r: (Snapshot, Outcome))
      requires rows >= 3
      requires currentView == Albums && CurrentIdx() + 1 > rows - 3 ==> |selectedTags| > 0
      ensures r.1 != Exit
      ensures r.0.currentView == currentView
      ensures r.0.CursorOf(currentView) == DownCursor(CursorOf(currentView), Len(), rows - 2)
      ensures forall v :: v != currentView ==> r.0.CursorOf(v) == CursorOf(v)
      ensures CurrentIdx() + 1 < rows - 2 ==> r.1 == Continue && r.0.Uncursored() == Uncursored()
      ensures CurrentIdx() + 1 >= rows - 2 ==>
        var (s3, ok) := SetCurrentViewState(0, CurrentPage()).SwitchPageUp(rows, fetch);
        r == (s3, if ok then Continue else Failed)
    {
      var s1 := SetCurrentViewState(CurrentIdx() + 1, CurrentPage());
      if s1.CurrentIdx() > rows - 3 then
        var s2 := s1.SetCurrentViewState(0, s1.CurrentPage());
        var (s3, ok) := s2.SwitchPageUp(rows, fetch);
        (s3, if ok then Continue else Failed)
      else
        (s1, Continue)
    }

    /** Up: previous row; from row 0 the row `rows - 3`, one page back if the page is not 0. */
    function PressUp(rows: nat): (r: Snapshot)
      requires rows >= 3
      ensures r.CursorOf(currentView) == UpCursor(CursorOf(currentView), rows - 2)
      ensures forall v :: v != currentView ==> r.CursorOf(v) == CursorOf(v)
      ensures r.Uncursored() == Uncursored()
    {
      if CurrentIdx() > 0 then
        SetCurrentViewState(CurrentIdx() - 1, CurrentPage())
      else
        var s1 := if CurrentPage() > 0 then SetCurrentViewState(CurrentIdx(), CurrentPage() - 1) else this;
        s1.SetCurrentViewState(rows - 3, s1.CurrentPage())
    }

    /** The tag the album search is made for: the first selected one. */
    function SearchTag(): (r: string)
      ensures |selectedTags| > 0 ==> r == selectedTags[0]
    {
      if |selectedTags| > 0 then selectedTags[0] else ""
    }

    /** The state after search page `page` was requested and its items appended. */
    function WithPage(page: int, items: seq<Item>): (r: Snapshot)
      ensures r == this.(discover := r.discover)
      ensures r.discover == discover.(content := r.discover.content, loadedPages := page)
      ensures |r.discover.content| == |discover.content| + |items|
      ensures r.discover.content[..|discover.content|] == discover.content
      ensures r.discover.content[|discover.content|..] == items
    {
      this.(discover := discover.(loadedPages := page, content := discover.content + items))
    }

    /**
     * The eager loading ends within `n` search requests: the list already
     * fills a page, or there is a tag to search and the next request fails,
     * or it succeeds and the loading then ends within `n - 1` more requests.
     */
    predicate DiscoverEndsWithin(rows: nat, fetch: Fetch, n: nat)
      decreases n
    {
      && rows >= 3
      && (|discover.content| >= rows - 2 ||
          (&& n > 0 && |selectedTags| > 0
           && var page := discover.loadedPages + 1;
              var items := fetch(selectedTags[0], page);
              items.None? || WithPage(page, items.value).DiscoverEndsWithin(rows, fetch, n - 1)))
    }

    /**
     * The eager loading after Enter on the tag view, given enough requests
     * `n` for it to end: while fewer than `rows - 2` albums are loaded,
     * request the next search page for the first selected tag and append
     * it. The flag is false when a request failed.
     */
    function DiscoverWithin(rows: nat, fetch: Fetch, n: nat): (r: (Snapshot, bool))
      requires DiscoverEndsWithin(rows, fetch, n)
      ensures r.1 ==> |r.0.discover.content| >= rows - 2
      ensures r.0 == this.(discover := r.0.discover)
      ensures r.0.discover == discover.(content := r.0.discover.content, loadedPages := r.0.discover.loadedPages)
      ensures discover.content <= r.0.discover.content && discover.loadedPages <= r.0.discover.loadedPages
      decreases n
    {
      if |discover.content| >= rows - 2 then (this, true)
      else
        var page := discover.loadedPages + 1;
        match fetch(selectedTags[0], page)
        case None => (this.(discover := discover.(loadedPages := page)), false)
        case Some(items) => WithPage(page, items).DiscoverWithin(rows, fetch, n - 1)
    }

    /** The eager loading ends after some number of requests; otherwise the code loops forever. */
    ghost predicate CanDiscover(rows: nat, fetch: Fetch)
    {
      exists n: nat :: DiscoverEndsWithin(rows, fetch, n)
    }

    /**
     * The eager loading as the code performs it: whatever number of
     * requests suffices for it to end, the outcome is the same.
     */
    ghost function DiscoverUntilFull(rows: nat, fetch: Fetch): (r: (Snapshot, bool))
      requires CanDiscover(rows, fetch)
      ensures forall n: nat :: DiscoverEndsWithin(rows, fetch, n) ==> r == DiscoverWithin(rows, fetch, n)
      ensures rows >= 3 && (r.1 ==> |r.0.discover.content| >= rows - 2)
      ensures r.0 == this.(discover := r.0.discover)
      ensures r.0.discover == discover.(content := r.0.discover.content, loadedPages := r.0.discover.loadedPages)
      ensures discover.content <= r.0.discover.content && discover.loadedPages <= r.0.discover.loadedPages
    {
      var n :| DiscoverEndsWithin(rows, fetch, n);
      DiscoverFuelIrrelevant(this, rows, fetch, n);
      DiscoverWithin(rows, fetch, n)
    }

    /**
     * Enter on the album view: resolve entry `selectedIdx` of the album list
     * and append one queue entry per track; when it cannot be resolved, an
     * error status naming the album. The index is the row on the page, not
     * an index into the list: the page is ignored.
     */
    function EnqueueSelected(resolve: Resolve): (r: Snapshot)
      requires discover.selectedIdx < |discover.content|
      requires PlayableAt(resolve, discover.content[discover.selectedIdx].tralbumUrl)
      ensures var item := discover.content[discover.selectedIdx];
        match resolve(item.tralbumUrl)
        case Some(album) =>
          && r == this.(queue := r.queue)
          && r.queue == queue.(content := r.queue.content)
          && |r.queue.content| == |queue.content| + |album.trackinfo.value|
          && r.queue.content[..|queue.content|] == queue.content
          && forall i :: 0 <= i < |album.trackinfo.value| ==>
               r.queue.content[|queue.content| + i] == QueueEntry(album, album.trackinfo.value[i])
        case None => r == this.(statusbarText := LoadFailedMessage(item.title), error := true)
    {
      var item := discover.content[discover.selectedIdx];
      match resolve(item.tralbumUrl)
      case Some(album) => this.(queue := queue.(content := queue.content + Expand(album)))
      case None => StatusBar(LoadFailedMessage(item.title), true)
    }

    /**
     * Enter on the tag view ends, and the album it then queues (entry 0 of the
     * list, once the loading succeeded) does not make the expansion panic.
     */
    ghost predicate EnterOnTagsDefined(rows: nat, fetch: Fetch, resolve: Resolve)
    {
      var s1 := this.(statusbarText := DiscoveringMessage).SwitchView(Albums);
      && rows >= 3
      && s1.CanDiscover(rows, fetch)
      && var (s2, ok) := s1.DiscoverUntilFull(rows, fetch);
         ok ==> PlayableAt(resolve, s2.discover.content[0].tralbumUrl)
    }

    /** The requirements under which handling `key` does not panic and ends. */
    ghost predicate KeyDefined(key: Key, rows: nat, fetch: Fetch, resolve: Resolve)
    {
      && rows >= 3
      && (key == Enter && currentView == Tags ==> EnterOnTagsDefined(rows, fetch, resolve))
      && (key == Enter && currentView == Albums ==>
            discover.selectedIdx < |discover.content| && PlayableAt(resolve, discover.content[discover.selectedIdx].tralbumUrl))
      && (key == Down && currentView == Albums && CurrentIdx() + 1 > rows - 3 ==> |selectedTags| > 0)
    }

    /** The effect of one key before the redraw that follows it. */
    ghost function ApplyKey(key: Key, rows: nat, fetch: Fetch, resolve: Resolve): (r: (Snapshot, Outcome))
      requires KeyDefined(key, rows, fetch, resolve)
      ensures r.0.tags.content == tags.content
      ensures r.0.displayTags == displayTags
    {
      match key
      case Char(c) =>
        if c == 'c' then (this, Exit)
        else if c == 'd' then (this.(selectedTags := []), Continue)
        else if c == 'q' then (SwitchView(Queue), Continue)
        else if c == ' ' then (this.(selectedTags := selectedTags + [tags.selectedTagName]), Continue)
        else (this, Continue)
      case Enter =>
        if currentView == Tags then
          var s1 := this.(statusbarText := DiscoveringMessage).SwitchView(Albums);
          var (s2, ok) := s1.DiscoverUntilFull(rows, fetch);
          if !ok then (s2, Failed)
          else (s2.(statusbarText := DoneMessage).EnqueueSelected(resolve), Continue)
        else if currentView == Albums then (EnqueueSelected(resolve), Continue)
        else (this, Continue)
      case Tab => (SwitchView(TabTarget(currentView)), Continue)
      case Down => PressDown(rows, fetch)
      case Up => (PressUp(rows), Continue)
      case OtherKey => (this, Continue)
    }

    /** The state effect of `redraw`: on the tag view the highlighted tag's name is recorded. */
    function Redraw(rows: nat): (r: Snapshot)
      requires rows >= 3
      ensures r == this.(tags := tags.(selectedTagName := r.tags.selectedTagName))
      ensures r.tags.selectedTagName == tags.selectedTagName || r.tags.selectedTagName in tags.content
    {
      var h := HighlightedRow(tags.content, CursorOf(Tags), rows - 2);
      if displayTags && currentView == Tags && h.Some? then this.(tags := tags.(selectedTagName := h.value)) else this
    }

    /** The requirements under which handling event `ev` does not panic and ends. */
    ghost predicate EventDefined(ev: Event, rows: nat, fetch: Fetch, resolve: Resolve)
    {
      rows >= 3 && |tags.content| > 0 && (ev.KeyPress? ==> KeyDefined(ev.key, rows, fetch, resolve))
    }

    /** One pass of the event loop: a key is handled and redrawn; a mouse event redraws; a resize redraws, then resets the row. */
    ghost function Step(ev: Event, rows: nat, fetch: Fetch, resolve: Resolve): (r: (Snapshot, Outcome))
      requires EventDefined(ev, rows, fetch, resolve)
      ensures r.0.tags.content == tags.content
      ensures !ev.KeyPress? ==> r.1 == Continue
      ensures r.1 == Exit <==> ev == KeyPress(Char('c'))
      ensures r.1 == Exit ==> r.0 == this
    {
      match ev
      case KeyPress(key) =>
        var (s1, out) := ApplyKey(key, rows, fetch, resolve);
        if out == Continue then (s1.Redraw(rows), Continue) else (s1, out)
      case Mouse => (Redraw(rows), Continue)
      case Resize =>
        var s1 := Redraw(rows);
        (s1.SetCurrentViewState(0, s1.CurrentPage()), Continue)
    }
  }

  /** Where Tab leads: to the tag view from the album view, to the album view from any other. */
  function TabTarget(from: CurrentView): (to: CurrentView)
    ensures to != Queue
    ensures to == Tags <==> from == Albums
  {
    if from == Albums then Tags else Albums
  }

  /** The state right after start-up, with the loaded tag list. */
  function Initial(tagList: seq<string>): (r: Snapshot)
    ensures r.currentView == Tags && r.tags.content == tagList && r.displayTags
    ensures forall v :: r.CursorOf(v) == Cursor(0, 0)
    ensures r.selectedTags == [] && r.discover.content == [] && r.queue.content == [] && r.discover.loadedPages == 0
    ensures r.statusbarText == InitialStatus && !r.error
  {
    Snapshot(
      statusbarText := InitialStatus,
      error := false,
      currentView := Tags,
      discover := ListBoxDiscover([], 0, 0, 0),
      selectedTags := [],
      tags := ListBoxTag(tagList, 0, 0, ""),
      queue := ListBoxQueue([], 0, 0),
      currentlyPlaying := 0,
      displayTags := true)
  }

  /** One event as the loop sees it, with the terminal size at that moment. */
  datatype Input = Input(event: Event, cols: nat, rows: nat)

  /** The requirements under which the loop handles `inputs` from `s` without a panic. */
  ghost predicate RunDefined(s: Snapshot, inputs: seq<Input>, fetch: Fetch, resolve: Resolve)
    decreases |inputs|
  {
    |inputs| == 0 ||
    (&& s.EventDefined(inputs[0].event, inputs[0].rows, fetch, resolve)
     && var (s1, out) := s.Step(inputs[0].event, inputs[0].rows, fetch, resolve);
        out == Continue ==> RunDefined(s1, inputs[1..], fetch, resolve))
  }

  /** The event loop over `inputs`: it stops at the first `c`, at the first failed request, or when the inputs run out. */
  ghost function Run(s: Snapshot, inputs: seq<Input>, fetch: Fetch, resolve: Resolve): (r: (Snapshot, Outcome))
    requires RunDefined(s, inputs, fetch, resolve)
    ensures r.0.tags.content == s.tags.content
    ensures |inputs| > 0 && inputs[0].event == KeyPress(Char('c')) ==> r == (s, Exit)
    decreases |inputs|
  {
    if |inputs| == 0 then (s, Continue)
    else
      var (s1, out) := s.Step(inputs[0].event, inputs[0].rows, fetch, resolve);
      if out == Continue then Run(s1, inputs[1..], fetch, resolve) else (s1, out)
  }

  /** Which number of requests makes the eager loading end does not change its outcome. */
  lemma {:induction false} DiscoverFuelPair(s: Snapshot, rows: nat, fetch: Fetch, n: nat, m: nat)
    requires s.DiscoverEndsWithin(rows, fetch, n) && s.DiscoverEndsWithin(rows, fetch, m)
    ensures s.DiscoverWithin(rows, fetch, n) == s.DiscoverWithin(rows, fetch, m)
    decreases n
  {
    if |s.discover.content| < rows - 2 {
      var page := s.discover.loadedPages + 1;
      var items := fetch(s.selectedTags[0], page);
      if items.Some? {
        DiscoverFuelPair(s.WithPage(page, items.value), rows, fetch, n - 1, m - 1);
      }
    }
  }

  lemma DiscoverFuelIrrelevant(s: Snapshot, rows: nat, fetch: Fetch, n: nat)
    requires s.DiscoverEndsWithin(rows, fetch, n)
    ensures rows >= 3
    ensures forall m: nat :: s.DiscoverEndsWithin(rows, fetch, m) ==> s.DiscoverWithin(rows, fetch, m) == s.DiscoverWithin(rows, fetch, n)
  {
    forall m: nat | s.DiscoverEndsWithin(rows, fetch, m)
      ensures s.DiscoverWithin(rows, fetch, m) == s.DiscoverWithin(rows, fetch, n)
    {
      DiscoverFuelPair(s, rows, fetch, m, n);
    }
  }

  /** The loop takes the first event; it ends there unless the outcome is to go on. */
  lemma RunFirst(s: Snapshot, inputs: seq<Input>, fetch: Fetch, resolve: Resolve)
    requires RunDefined(s, inputs, fetch, resolve) && |inputs| > 0
    ensures s.EventDefined(inputs[0].event, inputs[0].rows, fetch, resolve)
    ensures var (s1, out) := s.Step(inputs[0].event, inputs[0].rows, fetch, resolve);
      && (out == Continue ==> RunDefined(s1, inputs[1..], fetch, resolve) && Run(s, inputs, fetch, resolve) == Run(s1, inputs[1..], fetch, resolve))
      && (out != Continue ==> Run(s, inputs, fetch, resolve) == (s1, out))
  {
  }
}
