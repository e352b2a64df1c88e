# bc_rs browser, tag list and settings in Dafny

A model of three pieces of the Bandcamp player `bc_rs`, with proofs about
them:

- **The terminal browser** (`src/bop_interfaces/cli_advanced.rs`). It has
  three list views: the tags, the albums of the selected tag, and the play
  queue. Each view has a cursor made of a row index and a page. A page holds
  `rows - 2` entries, where `rows` is the terminal height. The views share a
  one-line status bar, a list of selected tags and a counter of the search
  pages loaded so far.
  - Module `BrowserModel` describes the whole state as a value `Snapshot`.
    Its transition functions are the specification.
  - Module `Browser` holds the `State` class. Its fields are assigned the way
    the Rust `&mut self` methods and the event loop assign them. Every method
    is proved to take the state exactly where the matching `Snapshot`
    function says.
  - Module `BrowserProps` proves what the key handling guarantees. It also
    proves invariants that hold for a whole session.
- **The tag list** (`src/components/discover.rs`), module `Discover`. Tag
  names are taken from the links on Bandcamp's tag page and normalised. The
  `tag.cache` file stores them one per line.
- **The settings** (`src/handlers/config.rs`), module `Config`. This covers
  the artwork quality, the volume and the theme, the defaults, and how the
  values read back from the settings dialog are normalised.

Modules `Wrappers` and `Text` hold the pieces of the Rust standard library
that the code relies on:
- `Option::unwrap_or`;
- `str::replace`, `starts_with`, `split`, `join`, `trim`;
- `i32` parsing and the integer casts.

Decisions taken where the model has to be explicit:

- **Outside inputs.** The album search `get_tag_data` is a parameter
  `fetch: (tag, page) -> Option<items>`, and album resolution `get_album` is
  `resolve: url -> Option<Album>`. The terminal size is a parameter.
- **Errors.** A request failure that the code propagates with `?` ends the
  event loop with the outcome `Failed`. The key `c` ends it with `Exit`.
- **Panics become preconditions** (`EventDefined`, `KeyDefined`, `RunDefined`):
  - `rows - 2` underflow, or a zero chunk size (`rows >= 3`);
  - the unwrap of the longest tag in `redraw` (needs a non-empty tag list);
  - `selected_tags[0]` on an empty selection, in the album view and in the eager loading;
  - `discover.content[selected_idx]` out of range;
  - the unwraps of `trackinfo` and `file` (`Playable`), for the album that is actually resolved.
- **The eager loading after Enter is modelled where it ends.** The loop
  requests search pages until the album list fills a page. `CanDiscover`
  holds exactly when it stops after some number of requests: the list
  fills, or a request fails. The result does not depend on how many
  requests are allowed (`DiscoverFuelIrrelevant`). An ordinary search,
  whose next page fills the list, qualifies whatever later pages return
  (`OneFullPageEndsLoading`). So does any search in which no successful
  request returns an empty page (`ProgressingSearchEnds`). A search that
  answers every request with an empty page never stops, as in the code
  (`EmptyPagesNeverEnd`). After the loop, only the album in row 0 has to
  be playable, and only when the loading succeeded.
- **The code is modelled as written**, including where it behaves
  surprisingly:
  - Space appends the tag name recorded by the last redraw of the tag view, in every view, even when it is already selected.
  - Space acts outside the tag view too: after Down and Tab it still appends the name recorded on the tag view, although the tag cursor was reset (`SpaceOutsideTagView`).
  - Enter on the tag view does not clear the albums loaded before, or the page counter. It then falls through to queueing the album in row 0 in the same key press.
  - Enter on the tag view writes the status text directly, so it keeps the previous error flag.
  - Enter on the album view resolves entry `selected_idx` of the whole album list. It ignores the page, so on page 1 it queues an album of page 0 and not the highlighted one (`EnterIgnoresPage`).
  - Up from row 0 goes to row `rows - 3`, also on page 0.
  - Down past the last row of an album page always requests the next search page, even when the page did not advance.
  - The page may advance onto a page with no rows when the list fills a whole number of pages (`PageUpOntoEmptyPage`).
  - The status text is "You aready scrolled to end!".
- **The tag-file cache round trip holds only for non-empty lists with no
  line breaks in the tags.** An empty fetched list is cached as an empty file.
  That file reads back as one empty tag (`EmptyCacheReadsOneTag`).

## Model

| member | source | states |
|---|---|---|
| BrowserModel.Snapshot.CurrentIdx | src/bop_interfaces/cli_advanced.rs:131-137 | the row returned is the active view's cursor row |
| BrowserModel.Snapshot.CurrentPage | src/bop_interfaces/cli_advanced.rs:139-145 | the page returned is the active view's cursor page |
| BrowserModel.Snapshot.Len | src/bop_interfaces/cli_advanced.rs:147-153 | the length returned is that of the active view's list |
| BrowserModel.Snapshot.SwitchView | src/bop_interfaces/cli_advanced.rs:104-110 | the tag and album cursors become (0, 0); the queue cursor is kept; `to` becomes active; nothing else changes |
| BrowserModel.Snapshot.SetCurrentViewState | src/bop_interfaces/cli_advanced.rs:112-129 | only the active view's cursor changes, to (idx, page); the other cursors, the lists and the active view are kept |
| BrowserModel.Snapshot.SwitchPageUp | src/bop_interfaces/cli_advanced.rs:283-303 | the active cursor moves as `PageUp`; other cursors are kept. Outside the album view the end message with error set is shown exactly when the page did not advance. In the album view the status is "Loading next page...", the counter goes up by one, the items of that search page are appended, and the result is false exactly when the request failed |
| BrowserModel.PageUp | src/bop_interfaces/cli_advanced.rs:289-293 | the row is kept; the page stays or goes up by one, and goes up only to a page that starts within the list |
| BrowserModel.PageUpStaysWithinLoaded | src/bop_interfaces/cli_advanced.rs:289 | `page < len / cap` implies `(page + 1) * cap <= len` |
| BrowserModel.PageUpOntoEmptyPage | src/bop_interfaces/cli_advanced.rs:289-290 | with two full pages, Down at the last row of page 1 reaches page 2, which highlights no entry |
| BrowserModel.DownCursor | src/bop_interfaces/cli_advanced.rs:398-404 | a row on the page stays on the page; below the last row the next row on the same page; at the last row, row 0 and the page moved as `PageUp` |
| BrowserModel.UpCursor | src/bop_interfaces/cli_advanced.rs:406-415 | above row 0, the previous row on the same page; from row 0, row `cap - 1` of the previous page, or page 0 if already there |
| BrowserModel.UpUndoesDown | src/bop_interfaces/cli_advanced.rs:398-415 | Up after Down restores the cursor, also across an advanced page |
| BrowserModel.DownUndoesUp | src/bop_interfaces/cli_advanced.rs:398-415 | Down after Up restores a cursor that is not on row 0 |
| BrowserModel.DownsStayOnPage | src/bop_interfaces/cli_advanced.rs:398-404 | after any number n of Downs the row is on the page and the page has grown by between 0 and n |
| BrowserModel.ChunkAt | src/bop_interfaces/cli_advanced.rs:191 | chunk i of `chunks(cap)` exists exactly when `i * cap < len`, and holds the entries from `i * cap` up to `i * cap + cap` |
| BrowserModel.Chunks | src/bop_interfaces/cli_advanced.rs:191 | `chunks(cap)` of a list is empty exactly when the list is |
| BrowserModel.ChunksConcat | src/bop_interfaces/cli_advanced.rs:191 | the chunks, laid end to end, give back the list, and each holds between 1 and `cap` entries |
| BrowserModel.HighlightedRow | src/bop_interfaces/cli_advanced.rs:197-206 | the highlighted row holds entry `page * cap + idx` when `idx < cap` and the entry exists, and nothing otherwise |
| BrowserModel.AsciiByteLen | src/bop_interfaces/cli_advanced.rs:271 | the byte length of an ASCII message is its character count |
| BrowserModel.StatusLine | src/bop_interfaces/cli_advanced.rs:271-278 | the status row starts with the fixed prefix and the message; its padding is `cols - bytes - 28` blanks, or none when that is negative |
| BrowserModel.StatusLineFits | src/bop_interfaces/cli_advanced.rs:271-278 | the status row is the prefix and the whole message followed only by blanks; for an ASCII message it is exactly `cols` wide when the message fits, and otherwise has no padding |
| BrowserModel.Spaces | src/bop_interfaces/cli_advanced.rs:278 | `" ".repeat(n)` is n blanks |
| BrowserModel.QueueEntry | src/bop_interfaces/cli_advanced.rs:364-370 | the album title, artist and track title are the given ones or the placeholders "Unknown album", "Unknown artist", "Unknown track title"; the audio URL is the track's mp3-128 file |
| BrowserModel.Expand | src/bop_interfaces/cli_advanced.rs:363-371 | one queue entry per album track |
| BrowserModel.ExpandEntries | src/bop_interfaces/cli_advanced.rs:364-370 | entry i carries track i's title and file and the album's title and artist, each replaced by its placeholder when missing |
| BrowserModel.Snapshot.StatusBar | src/bop_interfaces/cli_advanced.rs:155-158 | the status text and error flag become the given ones; nothing else changes: the view, the selection, the three lists with their cursors, the counter and the recorded name, the playing index and the tag view switch are kept |
| BrowserModel.Snapshot.PressDown | src/bop_interfaces/cli_advanced.rs:398-404 | the active cursor moves as `DownCursor`; the other cursors and the active view are kept; the key never exits. Below the last row nothing but the cursor changes and the outcome is to continue; at the last row the row becomes 0 and the result is that of `switch_page_up`, failing exactly when its request failed |
| BrowserModel.Snapshot.PressUp | src/bop_interfaces/cli_advanced.rs:406-415 | the active cursor moves as `UpCursor`; everything but that cursor is kept |
| BrowserModel.Snapshot.SearchTag | src/bop_interfaces/cli_advanced.rs:353 | the search is for the first selected tag |
| BrowserModel.Snapshot.WithPage | src/bop_interfaces/cli_advanced.rs:352-354 | after one successful request only the album list and the counter change: the counter is the page requested, and the list is the old one followed by that page's items |
| BrowserModel.Snapshot.DiscoverWithin | src/bop_interfaces/cli_advanced.rs:351-355 | given enough requests for the loop to end: only the album list and the counter change; the list only grows and the counter only increases; on success the list fills a page |
| BrowserModel.Snapshot.DiscoverUntilFull | src/bop_interfaces/cli_advanced.rs:351-355 | the loop's result equals `DiscoverWithin` for every number of requests after which it ends; only the album list and the counter change, both only grow, and on success the list fills a page |
| BrowserModel.DiscoverFuelPair | src/bop_interfaces/cli_advanced.rs:351-355 | two request budgets that both suffice give the same result |
| BrowserModel.DiscoverFuelIrrelevant | src/bop_interfaces/cli_advanced.rs:351-355 | the result for one sufficient budget is the result for every sufficient budget |
| BrowserModel.Snapshot.EnqueueSelected | src/bop_interfaces/cli_advanced.rs:358-375 | a resolved album appends one entry per track after the existing queue, which is kept as a prefix, and nothing else changes; a failed resolve changes only the status, to the error naming the album |
| BrowserModel.Snapshot.ApplyKey | src/bop_interfaces/cli_advanced.rs:342-420 | no key changes the tag list or the tag view switch |
| BrowserModel.TabTarget | src/bop_interfaces/cli_advanced.rs:390-396 | Tab never leads to the queue, and leads to the tag view exactly from the album view |
| BrowserModel.Snapshot.Redraw | src/bop_interfaces/cli_advanced.rs:197-206 | only the recorded tag name may change, and it becomes a name from the tag list if it changes |
| BrowserModel.Snapshot.Step | src/bop_interfaces/cli_advanced.rs:336-429 | no event changes the tag list; mouse and resize events always continue; the loop exits exactly on `c`, and then nothing has changed |
| BrowserModel.Initial | src/bop_interfaces/cli_advanced.rs:321-332 | the start-up state: the tag view, the loaded tag list shown, all cursors at (0, 0), no selection, albums or queue, counter 0, the help text and no error |
| BrowserModel.Run | src/bop_interfaces/cli_advanced.rs:335-430 | a session never changes the tag list, and a session starting with `c` exits at once with the state unchanged |
| BrowserModel.RunFirst | src/bop_interfaces/cli_advanced.rs:335-430 | the loop handles the first event; it goes on from the resulting state exactly when the outcome is to continue |
| BrowserProps.ViewKeys | src/bop_interfaces/cli_advanced.rs:386-396 | Tab goes to `TabTarget`, `q` to the queue; both reset the tag and album cursors and keep the queue cursor |
| BrowserProps.SelectionKeys | src/bop_interfaces/cli_advanced.rs:342-420 | Space appends the recorded tag name and changes nothing else; `d` empties the selection; `c` exits with the state unchanged |
| BrowserProps.SpaceOutsideTagView | src/bop_interfaces/cli_advanced.rs:390-420 | after Down and Tab on tags Jazz and Rock the album view is active and the tag cursor is (0, 0), yet Space selects Rock |
| BrowserProps.SpaceTwiceSelectsTwice | src/bop_interfaces/cli_advanced.rs:417-420 | two Spaces on a redrawn tag view select the same tag twice |
| BrowserProps.DownKeepsRowOnPage | src/bop_interfaces/cli_advanced.rs:398-404 | Down keeps a row that is on the page on the page, and keeps the view; the page stays or advances once, and only within the list; below the last row it is one row down on the same page |
| BrowserProps.PageCrossInAlbumsFetches | src/bop_interfaces/cli_advanced.rs:296-301 | Down at the last album row: the counter goes up by one, that page's items are appended, the status is "Loading next page..." with no error, the row is 0, and the outcome is a failure exactly when the request failed |
| BrowserProps.PageCrossAtEndReports | src/bop_interfaces/cli_advanced.rs:289-293 | outside the album view, Down at the last row of the last page keeps the page, sets the row to 0 and shows the end message as an error |
| BrowserProps.UpKey | src/bop_interfaces/cli_advanced.rs:406-415 | Up above row 0 moves one row up on the same page; from row 0 it goes to row `rows - 3` of the previous page (page 0 stays); nothing else changes |
| BrowserProps.ResizeResetsRow | src/bop_interfaces/cli_advanced.rs:425-428 | a resize sets the active row to 0 and keeps its page, the other cursors, the view, all lists and the selection |
| BrowserProps.RedrawRecordsHighlightedTag | src/bop_interfaces/cli_advanced.rs:197-206 | a redraw of the active tag view records entry `page * (rows - 2) + idx` when it exists; otherwise nothing changes, and nothing but the recorded name ever changes |
| BrowserProps.FirstRedrawRecordsFirstTag | src/bop_interfaces/cli_advanced.rs:321-333 | the redraw at start-up records the first tag |
| BrowserProps.FetchedSplit | src/bop_interfaces/cli_advanced.rs:351-355 | the items of a run of search pages are those of its two halves, in order |
| BrowserProps.DiscoverWithinStep | src/bop_interfaces/cli_advanced.rs:351-355 | after one successful request on a short list the loading goes on from the state with that page appended and the counter one up, with one request fewer needed |
| BrowserProps.AppendsPagesAfterRequest | src/bop_interfaces/cli_advanced.rs:351-355 | the guarantee of `DiscoverUntilFullAppendsPages` in the case where the first request succeeds |
| BrowserProps.DiscoverUntilFullAppendsPages | src/bop_interfaces/cli_advanced.rs:351-355 | for any request budget that suffices, eager loading appends exactly the items of search pages counter+1 to the final counter, in order; it fails exactly when the last request failed |
| BrowserProps.DiscoverUntilFullStopsFirst | src/bop_interfaces/cli_advanced.rs:351-355 | for any request budget that suffices, eager loading requests a further page only while the list is shorter than a page, and never after a failure |
| BrowserProps.OneFullPageEndsLoading | src/bop_interfaces/cli_advanced.rs:351-355 | when the next search page fills the list, the loading ends after that request with that page appended, whatever later pages hold |
| BrowserProps.ProgressingSearchEnds | src/bop_interfaces/cli_advanced.rs:351-355 | when no successful request returns an empty page, the loading ends within `rows - 2 - len` requests |
| BrowserProps.DiscoverEndsWithinMore | src/bop_interfaces/cli_advanced.rs:351-355 | a loading that ends within n requests also ends within any larger budget |
| BrowserProps.EmptyPagesNeverEnd | src/bop_interfaces/cli_advanced.rs:351-355 | when every page comes back empty and the list is short, no budget suffices: the loop never ends |
| BrowserProps.EnterOnTagsLoadsAndQueues | src/bop_interfaces/cli_advanced.rs:347-376 | Enter on the tag view activates the album view at (0, 0), keeps the albums loaded before, and only grows the queue. On failure the status stays "Discovering" and the queue is unchanged. Otherwise a page is full and the first album is queued with "Done!" and the old error flag, or its failure is reported |
| BrowserProps.EnterOnAlbumsQueues | src/bop_interfaces/cli_advanced.rs:358-375 | Enter on the album view appends the tracks of entry `selected_idx` of the album list, or only sets the error naming it |
| BrowserProps.EnterIgnoresPage | src/bop_interfaces/cli_advanced.rs:358-375 | at row 0 of album page 1 the highlighted row is entry `rows - 2`, yet Enter queues, or reports, entry 0 |
| BrowserProps.EnterWithOneFullPage | src/bop_interfaces/cli_advanced.rs:347-376 | Enter on the tag view whose next search page fills the list: the album view at (0, 0), that page appended, counter + 1, "Done!", and the album in row 0 queued |
| BrowserProps.InitialGood | src/bop_interfaces/cli_advanced.rs:321-332 | the start-up state keeps rows on pages, pages within their lists, and names from the tag list |
| BrowserProps.RedrawGood | src/bop_interfaces/cli_advanced.rs:197-206 | a redraw keeps those invariants, every list and the selection |
| BrowserProps.PageCrossGood | src/bop_interfaces/cli_advanced.rs:283-303 | Down at the last row keeps the invariants and the selection, and only grows the lists |
| BrowserProps.DownGood | src/bop_interfaces/cli_advanced.rs:398-404 | Down keeps the invariants and the selection, and only grows the lists |
| BrowserProps.UpGood | src/bop_interfaces/cli_advanced.rs:406-415 | Up keeps the invariants, the lists and the selection |
| BrowserProps.SwitchViewGood | src/bop_interfaces/cli_advanced.rs:104-110 | a view switch keeps the invariants and the lists |
| BrowserProps.CharGood | src/bop_interfaces/cli_advanced.rs:378-420 | the character keys keep the invariants and the lists; the selection is kept, emptied or extended by the recorded name |
| BrowserProps.EnqueueGood | src/bop_interfaces/cli_advanced.rs:358-375 | queueing keeps the invariants and the selection, and only grows the queue |
| BrowserProps.EnterGood | src/bop_interfaces/cli_advanced.rs:347-376 | Enter keeps the invariants and the selection, and only grows the album and queue lists |
| BrowserProps.KeyGood | src/bop_interfaces/cli_advanced.rs:342-420 | every key keeps the invariants and the tag list, only grows the album and queue lists and the counter, and keeps, empties or extends the selection |
| BrowserProps.StepGood | src/bop_interfaces/cli_advanced.rs:336-429 | every event keeps the invariants for its page size, with the same list and selection guarantees |
| BrowserProps.RunGood | src/bop_interfaces/cli_advanced.rs:335-430 | over a session at one terminal height the invariants hold after every event, the tag list never changes, and the album and queue lists only grow |
| BrowserProps.DownThenSpaceSelectsSecondTag | src/bop_interfaces/cli_advanced.rs:398-420 | on four rows with tags Jazz and Rock, Down then Space select Rock, keep the tag view, and make no request |
| BrowserProps.RunPrepend | src/bop_interfaces/cli_advanced.rs:335-430 | a session whose first event continues is that event followed by the rest of the session |
| BrowserProps.EnterLoadsAndQueuesFirstAlbum | src/bop_interfaces/cli_advanced.rs:347-376 | on four rows with Rock selected and nothing loaded, Enter loads Rock's page 1, goes to the album view with "Done!", and queues the first album's two tracks with placeholders |
| BrowserProps.SelectTagAndQueueAlbum | src/bop_interfaces/cli_advanced.rs:335-430 | on four rows with tags Jazz and Rock, for any search whose Rock page 1 holds two albums, Down, Space and Enter select Rock, load that page and queue the first album's two tracks with placeholders, whatever later pages hold |
| Browser.State.Init | src/bop_interfaces/cli_advanced.rs:321-332 | the start-up state: the tag view active, the initial help text, empty selection, albums and queue, all cursors at (0, 0) |
| Browser.State.SwitchView | src/bop_interfaces/cli_advanced.rs:104-110 | the fields change as `Snapshot.SwitchView` |
| Browser.State.SetCurrentViewState | src/bop_interfaces/cli_advanced.rs:112-129 | the fields change as `Snapshot.SetCurrentViewState` |
| Browser.State.GetCurrentIdx | src/bop_interfaces/cli_advanced.rs:131-137 | the row of the active view |
| Browser.State.GetCurrentPage | src/bop_interfaces/cli_advanced.rs:139-145 | the page of the active view |
| Browser.State.GetLen | src/bop_interfaces/cli_advanced.rs:147-153 | the length of the active view's list |
| Browser.State.StatusBar | src/bop_interfaces/cli_advanced.rs:155-158 | only the status text and the error flag change |
| Browser.State.SwitchPageUp | src/bop_interfaces/cli_advanced.rs:283-303 | the fields and result are those of `Snapshot.SwitchPageUp` |
| Browser.State.DiscoverUntilFull | src/bop_interfaces/cli_advanced.rs:351-355 | the while loop's fields and result are those of `Snapshot.DiscoverUntilFull` |
| Browser.State.QueueAlbum | src/bop_interfaces/cli_advanced.rs:363-371 | the push loop appends `Expand(album)` to the queue and changes nothing else |
| Browser.State.EnqueueSelected | src/bop_interfaces/cli_advanced.rs:358-375 | the fields change as `Snapshot.EnqueueSelected` |
| Browser.State.PressEnter | src/bop_interfaces/cli_advanced.rs:347-376 | the fields and outcome are those of `ApplyKey(Enter)`, with the fall-through from the tag view |
| Browser.State.PressDown | src/bop_interfaces/cli_advanced.rs:398-404 | the fields and outcome are those of `Snapshot.PressDown` |
| Browser.State.PressUp | src/bop_interfaces/cli_advanced.rs:406-415 | the fields change as `Snapshot.PressUp` |
| Browser.State.HandleKey | src/bop_interfaces/cli_advanced.rs:342-420 | the fields and outcome are those of `Snapshot.ApplyKey` |
| Browser.State.Redraw | src/bop_interfaces/cli_advanced.rs:169-281 | walking the chunks records the highlighted tag as `Snapshot.Redraw`; the returned status row is `StatusLine` with the clamped padding |
| Browser.State.HandleEvent | src/bop_interfaces/cli_advanced.rs:336-429 | the fields and outcome are those of `Snapshot.Step` |
| Browser.LoadInterface | src/bop_interfaces/cli_advanced.rs:321-430 | the final state and outcome are those of `Run` from the redrawn start-up state |
| Browser.EventLoop | src/bop_interfaces/cli_advanced.rs:335-430 | the loop's final state and outcome are those of `Run` from the state it starts in |
| Discover.Capitalize | src/components/discover.rs:39-46 | same length; the first character upper-cased and never a lower-case letter, the rest unchanged |
| Discover.CapitalizeIdempotent | src/components/discover.rs:39-46 | capitalising twice equals capitalising once |
| Discover.TagOf | src/components/discover.rs:32-46 | a link's contribution is no longer than the link and never starts with a lower-case letter |
| Discover.TagOfPlainLink | src/components/discover.rs:32-37 | `/tag/name` qualifies and contributes the capitalised name |
| Discover.Collected | src/components/discover.rs:29-47 | at most one tag per anchor |
| Discover.CollectedMembers | src/components/discover.rs:29-47 | a name is collected exactly when some anchor's link starts with `/tag/` and contributes it |
| Discover.LessIrreflexive | src/components/discover.rs:49 | the string order is irreflexive |
| Discover.LessTransitive | src/components/discover.rs:49 | the string order is transitive |
| Discover.LessTotal | src/components/discover.rs:49 | any two strings are equal or ordered one way |
| Discover.LessAsymmetric | src/components/discover.rs:49 | the string order is asymmetric |
| Discover.LessEqAntisymmetric | src/components/discover.rs:49 | two strings each at most the other are equal |
| Discover.Insert | src/components/discover.rs:49 | inserting into a sorted list gives a sorted list with one more occurrence of the element |
| Discover.Sort | src/components/discover.rs:49 | the result is sorted and a permutation of the input |
| Discover.SortedFirstLeast | src/components/discover.rs:49 | the first tag of a sorted list is at most every tag in it |
| Discover.SortedTail | src/components/discover.rs:49 | the rest of a sorted list is sorted |
| Discover.SortedUnique | src/components/discover.rs:49 | two sorted lists with the same tags are equal, so the result of `sort` is determined by its input |
| Discover.Deduplicated | src/components/discover.rs:50 | no longer than the input, and ends with the input's last element |
| Discover.Dedup | src/components/discover.rs:50 | the loop computes `Deduplicated` |
| Discover.DedupSorted | src/components/discover.rs:49-50 | dedup of a sorted list is strictly ascending and has the same members |
| Discover.Retained | src/components/discover.rs:52 | no longer than the input |
| Discover.Retain | src/components/discover.rs:52 | the loop computes `Retained` |
| Discover.RetainedProps | src/components/discover.rs:52 | retain keeps exactly the non-empty alphanumeric tags, and keeps a strictly sorted list strictly sorted |
| Discover.GetTagsFromInternet | src/components/discover.rs:19-55 | a failed request gives no list; otherwise the tags are strictly ascending, all valid, and exactly the valid collected names |
| Discover.NormalisedTags | src/components/discover.rs:29-52 | a name is returned exactly when it is valid and the capitalised form of a qualifying link; no returned tag starts with a lower-case letter |
| Discover.GetTags | src/components/discover.rs:57-70 | the split cache when it was read, else the fetched list written with `join`, else the empty list; a non-empty written list splits back into itself |
| Discover.EmptyCacheReadsOneTag | src/components/discover.rs:62-64 | an empty list written with `join` reads back as one empty tag |
| Config.Discriminant | src/handlers/config.rs:15-20 | the discriminant is one of 7, 6, 42, 22, and 7 exactly for `High` |
| Config.DiscriminantInjective | src/handlers/config.rs:15-20 | distinct qualities have distinct discriminants |
| Config.AsUsize | src/handlers/config.rs:76 | `as usize` keeps non-negative values and maps negative ones above the `i32` range |
| Config.AsU16 | src/handlers/config.rs:161 | `as u16` is congruent modulo 65536 and keeps values in 0..65535 |
| Config.QualityOfIndex | src/handlers/config.rs:76-85 | an index 0..3 selects that entry of `LOAD_ARTWORKS`; a negative index or one above 3 selects `High` |
| Config.IndexOfQuality | src/handlers/config.rs:129-132 | the index returned holds the quality in `LOAD_ARTWORKS` |
| Config.Position | src/handlers/config.rs:129-132 | the first index holding the value, and none exactly when the value is absent |
| Config.IndexRoundTrip | src/handlers/config.rs:129-132 | the position of entry i is i, and every quality's position selects it again |
| Config.ArtworkFromValue | src/handlers/config.rs:64-85 | a value parsing to 0..3 selects that entry of `LOAD_ARTWORKS`; any other parsed value, or none, selects `High` |
| Config.ArtworkFallback | src/handlers/config.rs:64-69 | an unparseable value, the empty value and "-1" all select `High` |
| Config.ArtworkValueRoundTrip | src/handlers/config.rs:64-85 | a quality's position, written in decimal with or without quotes, reads back as the same quality |
| Config.RemoveCharAppend | src/handlers/config.rs:67 | removing a trailing quote from a quote-free text gives the text |
| Config.ThemeFromValue | src/handlers/config.rs:71-95 | the stored theme is never blank and has no quotes; it is the quote-free value whenever that is not blank, and `hope_diamond` otherwise |
| Config.VolumeFromValue | src/handlers/config.rs:154-161 | an unparseable value gives 100; otherwise the parsed `i32` truncated to `u16` |
| Config.VolumeValues | src/handlers/config.rs:154-161 | a value 0..65535 is stored as is; "-1" becomes 65535 |
| Config.LoadedSettings | src/handlers/config.rs:38-55 | an unreadable or unparseable file gives the defaults; a parsed one gives its settings |
| Config.Config.Default | src/handlers/config.rs:30-36 | `High`, volume 100, theme `hope_diamond` |
| Config.Config.New | src/handlers/config.rs:38-55 | the stored settings are `LoadedSettings` |
| Config.Config.SetSettings | src/handlers/config.rs:57-96 | the artwork quality and theme are normalised from the dialog values; the volume is kept |
| Config.Config.GetLoadArtworks | src/handlers/config.rs:110-112 | the discriminant of the stored quality, one of 7, 6, 42, 22 |
| Config.Config.DocumentComplete | src/handlers/config.rs:116-137 | the dialog shows the stored volume and theme, and an index into `LOAD_ARTWORKS` holding the stored quality |
| Config.Config.OnEvent | src/handlers/config.rs:139-169 | handled exactly for a button click on id `volume`, which stores the normalised volume; nothing else changes |
| Config.DialogRoundTrip | src/handlers/config.rs:57-137 | showing the settings in the dialog and saving it unchanged keeps every setting |
| Text.RemoveAll | src/components/discover.rs:37 | `replace(p, "")` never lengthens the string |
| Text.RemoveAllAbsent | src/components/discover.rs:37 | where the pattern does not occur nothing is removed |
| Text.RemoveChar | src/handlers/config.rs:67 | exactly the other characters remain; a string without the character is unchanged |
| Text.Split | src/components/discover.rs:62 | at least one piece, none holding the separator |
| Text.Join | src/components/discover.rs:64 | the result starts with the first piece, followed by the separator when there is a second; one piece joins to itself |
| Text.SplitJoin | src/components/discover.rs:62-64 | a non-empty list of separator-free pieces survives `join` then `split` |
| Text.JoinSplit | src/components/discover.rs:62-64 | every string survives `split` then `join` |
| Text.TrimStart | src/handlers/config.rs:87 | removes exactly the leading whitespace |
| Text.TrimEnd | src/handlers/config.rs:87 | removes exactly the trailing whitespace |
| Text.Trim | src/handlers/config.rs:87 | no longer than the input; a non-empty result neither starts nor ends with whitespace; only whitespace is removed in front and only whitespace at the end, the rest being a prefix of the input without the leading whitespace |
| Text.TrimEmptyIffBlank | src/handlers/config.rs:87 | `trim().is_empty()` holds exactly of all-whitespace strings |
| Text.ShowNatValue | src/handlers/config.rs:68 | decimal rendering reads back as the number |
| Text.ParseI32 | src/handlers/config.rs:68 | a parsed value lies in the `i32` range; the empty string does not parse |
| Text.ParseShowInt | src/handlers/config.rs:68 | every `i32` survives rendering and `parse::<i32>` |
| Wrappers.Option.GetOr | src/handlers/config.rs:69 | `unwrap_or` is the carried value, or the default when there is none |

## Left out

- Terminal output is not modelled: drawing, colours, cursor moves, raw mode, mouse capture and the column widths of `redraw`. Only the recorded tag name and the status row are modelled, as its results.
- `read()` and `size()` are replaced by the event inputs and the `rows`/`cols` parameters. Each event is handled with one terminal size; in the code, `redraw` and `switch_page_up` query the size again themselves.
- The network is not modelled. The album search, album resolution, tag loading (`get_tags` in bop_core), `get_discover` and `set_image` are abstract functions or are left out, and async execution is treated as sequential.
- HTML parsing is not modelled. The tag pipeline starts from the `href` values of the anchors.
- File I/O and TOML are inputs. The contents of `tag.cache` and `configuration.toml` are `Option` values, and TOML parsing is a parameter.
- The cache write's `unwrap` is not modelled: the written text is returned and a failed write is not represented.
- `save_config` is left out: it only writes the file and logs.
- The UI glue is left out: Dioxus components, sciter DOM lookups (`find_first`, `set_value`, `call_function`) and the `dispatch_script_call` table. The DOM values arrive as strings.
- `frontend/event_dispatcher.js` and `frontend/conts.js` are left out. They are call wrappers and constant tables.
- Logging is left out.
- Discover.UpperChar: `to_uppercase` is modelled for ASCII only, mapping a character to one character.
- Discover.IsAlphanumeric: `is_alphanumeric` is modelled for ASCII only.
- Discover.Sort: the in-place `sort` is modelled as an insertion sort on a sequence, so the in-place update of the vector is not represented. The same applies to `dedup` and `retain`.
- Key modifiers are not carried: a key pressed with a modifier is `OtherKey`, which matches none of the handled keys, as a `KeyEvent` with modifiers compares unequal to a plain key in the code.
- Browser.State.HandleKey: the key checks are written as one `match` rather than a chain of `if`s. The keys are different values, so the result is the same.
- BrowserModel.Snapshot.DiscoverUntilFull: the loop is modelled only where it ends (`CanDiscover`). A search that answers every request of a short list with an empty page makes the code loop forever (`EmptyPagesNeverEnd`); that run has no result in the model.
- BrowserModel.ListBoxDiscover: the page counter `loadedpages` is an unbounded integer, so it does not model `i32` overflow.
- The "h" key is left out: it does nothing.
- `draw_line` is left out: it only draws.
