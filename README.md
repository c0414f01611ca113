# AI music video client: the rules behind the screens

This project models, in Dafny, the logic inside the React client of an "AI music
video" product. The screens themselves are markup. The logic modelled here is:

- **Video library** (`video_library.dfy`, module `VideoLibrary`). The search and
  status-filter rule that decides which videos are listed. The `searchTerm` and
  `filterType` state and their handlers. The header count, the status badge
  class, the filter-button highlighting and the empty-state card.
- **Dashboard** (`dashboard.dfy`, module `Dashboard`). `getStatusColor`, from a
  job status to a badge class.
- **Live stream panel** (`live_stream.dfy`, module `LiveStream`). The
  `isStreaming`/`streamTitle` state, the start/stop toggle, the title input, the
  parts of the panel that depend on `isStreaming`, and the device `getStatusColor`.
- **Landing page** (`index_page.dfy`, module `IndexPage`). The
  `activeTab`/`showHero` state, the `onTabChange` transition and the
  tab-to-view dispatch `renderActiveComponent`.
- **Navigation bar** (`navigation.dfy`, module `Navigation`). The fixed tab
  list, which button is drawn active, and which ids a click can emit.
- **Dashboard route** (`dashboard_page.dfy`, module `DashboardPage`).
  `getActiveTab`, from a URL path to a tab id by prefix.
- **Filtering** (`filtering.dfy`, module `Filtering`). `Array.prototype.filter`
  over a sequence, with its soundness, completeness and order preservation.
- **Strings** (`text.dfy`, module `Text`). `toLowerCase`, `includes` and
  `startsWith` over `seq<char>`.

State that a component updates in place is a class whose fields are the
component's `useState` variables (`LibraryView`, `StreamControl`, `Page`). Each
handler is a method. Its postcondition ties the new state to a pure transition
function of the old state (`Toggle`, `EditTitle`, `TabChange`). The properties
are proved about those functions. The matching rule, the colour maps and the
dispatch are pure functions.

Assumption: letter case is ASCII only. `toLowerCase` maps 'A'..'Z' to 'a'..'z'
and leaves every other character alone. JavaScript's Unicode case mapping is
not modelled.

Every list in these components is a hard-coded array; the components do no
fetching, polling or timing.

## Model

| member | source | states |
|---|---|---|
| Text.ToLower | src/components/VideoLibrary.tsx:86-87 | the lowered character is never an ASCII capital; non-capitals are unchanged; capitals move by 32 |
| Text.LowerCase | src/components/VideoLibrary.tsx:86-87 | `toLowerCase` keeps the length and lowers every character at its own position |
| Text.LowerCaseIdempotent | src/components/VideoLibrary.tsx:86-87 | lowering an already lowered string changes nothing |
| Text.LowerCaseOfUpperCase | src/components/VideoLibrary.tsx:86-87 | upper-casing a string first does not change its lowered form |
| Text.IncludesIffOccurs | src/components/VideoLibrary.tsx:86-87 | `includes` holds exactly when the term occurs at some position of the string (both directions) |
| Text.OccurrenceIsIncluded | src/components/VideoLibrary.tsx:86-87 | an occurrence at any position is found by `includes` |
| Text.IncludedOccurs | src/components/VideoLibrary.tsx:86-87 | whatever `includes` accepts occurs at some position |
| Text.Includes | src/components/VideoLibrary.tsx:86-87 | a string includes only terms no longer than itself, and every string includes the empty term |
| Text.StartsWith | src/pages/DashboardPage.tsx:10 | `startsWith` holds iff the prefix occurs at position 0, and then the string is the prefix followed by the rest |
| Filtering.Filter | src/components/VideoLibrary.tsx:85 | `filter` never returns more elements than it was given; membership and order are its partner lemmas below |
| Filtering.FilterKeepsNone | src/components/VideoLibrary.tsx:85 | when the callback accepts no element, the result is empty |
| Filtering.FilterMembership | src/components/VideoLibrary.tsx:85 | `filter` keeps an element exactly when it is in the input and the callback accepts it |
| Filtering.KeptIndices | src/components/VideoLibrary.tsx:85 | the accepted positions, strictly increasing and in range; each is accepted and every accepted position is listed |
| Filtering.FilterIsSubsequence | src/components/VideoLibrary.tsx:85 | `filter`'s result is the input read at the accepted positions, in order |
| Filtering.FilterAppend | src/components/VideoLibrary.tsx:85 | an element appended to the input is appended to the result exactly when accepted |
| Filtering.FilterKeepsAll | src/components/VideoLibrary.tsx:85 | when the callback accepts every element, the result is the input |
| Filtering.FilterCongruent | src/components/VideoLibrary.tsx:85 | callbacks that agree on the input give the same result |
| Filtering.FilterConjunction | src/components/VideoLibrary.tsx:85 | filtering by a conjunction equals filtering by one test and then by the other |
| VideoLibrary.MatchesSearch | src/components/VideoLibrary.tsx:86-87 | the empty search term matches every video; `FilteredMembership` and `SearchIgnoresCase` state the rest |
| VideoLibrary.MatchesFilter | src/components/VideoLibrary.tsx:88 | 'all' passes every video; any other filter passes a video iff its status equals the filter exactly |
| VideoLibrary.FilteredVideos | src/components/VideoLibrary.tsx:85-90 | the list is never longer than the library; `FilteredMembership` and `FilteredIsSubsequence` state which videos and in what order |
| VideoLibrary.FilteredMembership | src/components/VideoLibrary.tsx:85-90 | soundness and completeness: a video is listed iff it is in the library, its lowered title or a lowered tag includes the lowered term, and it passes the status filter |
| VideoLibrary.FilteredIsSubsequence | src/components/VideoLibrary.tsx:85-90 | the list is the library read at strictly increasing positions, and a position is read iff its video passes both tests: nothing reordered, duplicated or invented |
| VideoLibrary.SearchThenStatus | src/components/VideoLibrary.tsx:85-90 | the two tests are independent: the list equals the 'all' search result filtered by status alone |
| VideoLibrary.FilterTypeMeaning | src/components/VideoLibrary.tsx:88 | under 'all' a video is listed iff it matches the search; under any other filter iff it matches the search and its status equals the filter exactly |
| VideoLibrary.EmptySearchKeepsAll | src/components/VideoLibrary.tsx:85-90 | with search '' and filter 'all' the list is the whole library, in order |
| VideoLibrary.SearchIgnoresCase | src/components/VideoLibrary.tsx:86-87 | two search terms with the same lowered form give the same list |
| VideoLibrary.UpperCaseSearchSame | src/components/VideoLibrary.tsx:86-87 | typing the term in capitals gives the same list |
| VideoLibrary.StatusFiltersOfSix | src/components/VideoLibrary.tsx:85-90 | for five 'completed' videos followed by one 'processing' video and an empty search, 'processing' lists only the sixth and 'completed' the first five |
| VideoLibrary.FixtureStatuses | src/components/VideoLibrary.tsx:22-83 | the component's six videos are five 'completed' ones followed by one 'processing' one |
| VideoLibrary.FixtureUnderEachButton | src/components/VideoLibrary.tsx:22-90 | on the component's own videos with an empty search, 'all' lists all six, 'completed' the first five and 'processing' only the sixth, so no button ever empties the grid |
| VideoLibrary.StatusBadge | src/components/VideoLibrary.tsx:169 | the badge is 'bg-primary' iff the status is 'completed', and 'bg-accent' otherwise |
| VideoLibrary.EmptyStateFor | src/components/VideoLibrary.tsx:220-226 | the empty-state card appears iff nothing is listed; its message is "Try adjusting your search terms" iff a search term was typed, else "Your video library is empty" |
| VideoLibrary.FilterValue | src/components/VideoLibrary.tsx:123-137 | the three buttons store three different values: 'all', 'completed' and 'processing', each iff it is that button |
| VideoLibrary.ButtonVariant | src/components/VideoLibrary.tsx:120-140 | a filter button is 'default' iff the filter equals its value, 'outline' otherwise |
| VideoLibrary.OnlyClickedButtonHighlighted | src/components/VideoLibrary.tsx:120-140 | when the filter was set by a button, that button and no other is highlighted |
| VideoLibrary.LibraryView.HeaderCount | src/components/VideoLibrary.tsx:101 | the header count is the library size whatever the search and filter, and never less than the number listed |
| VideoLibrary.LibraryView.Visible | src/components/VideoLibrary.tsx:148 | the grid never shows more videos than the library holds |
| VideoLibrary.LibraryView.Card | src/components/VideoLibrary.tsx:220-226 | the empty-state card is shown iff the grid is empty; its message is "Your video library is empty" iff the search term is empty |
| VideoLibrary.LibraryView.ActiveButton | src/components/VideoLibrary.tsx:120-140 | in every valid state exactly one filter button is drawn 'default' |
| VideoLibrary.LibraryView.constructor | src/components/VideoLibrary.tsx:19-83 | the component starts with its six videos, search '' and filter 'all', and lists every video |
| VideoLibrary.LibraryView.OnSearchInput | src/components/VideoLibrary.tsx:113 | typing replaces the search term, keeps the filter, and the list becomes the filter of the library under the new term |
| VideoLibrary.LibraryView.OnFilterClick | src/components/VideoLibrary.tsx:123-138 | a click stores the button's value, keeps the term, highlights that button and no other |
| Dashboard.StatusColor | src/components/Dashboard.tsx:50-57 | 'live' maps to 'bg-destructive', 'processing' to 'bg-accent' and 'completed' to 'bg-primary', each iff; every other string maps to 'bg-muted'; total |
| Dashboard.RecognisedColoursDistinct | src/components/Dashboard.tsx:52-54 | no two recognised statuses share a colour |
| LiveStream.Toggle | src/components/LiveStream.tsx:88 | the stream button flips `isStreaming` and keeps the title |
| LiveStream.EditTitle | src/components/LiveStream.tsx:79 | the title input sets the title and keeps `isStreaming` |
| LiveStream.ToggleTwice | src/components/LiveStream.tsx:88 | pressing the button twice restores the state |
| LiveStream.PressesParity | src/components/LiveStream.tsx:88 | after n presses the stream is on iff it started on and n is even, or started off and n is odd; the title never changes |
| LiveStream.Render | src/components/LiveStream.tsx:65-161 | the LIVE badge, the stats panel and the "Live Stream Active" preview are shown iff streaming, "Stream Offline" iff not; the button reads "Stop Stream" and is 'bg-destructive' iff streaming, and reads "Start Stream" and is 'bg-primary' iff not |
| LiveStream.EditTitleKeepsRender | src/components/LiveStream.tsx:79 | editing the title changes none of the streaming-dependent parts |
| LiveStream.ToggleChangesRender | src/components/LiveStream.tsx:85-100 | a press changes the badge, the stats panel, the button label, the button colour and the preview |
| LiveStream.DeviceStatusColor | src/components/LiveStream.tsx:48-55 | 'connected' maps to 'bg-primary' and 'streaming' to 'bg-destructive', each iff; 'disconnected' and every other string map to 'bg-muted'; total |
| LiveStream.StreamControl.constructor | src/components/LiveStream.tsx:20-21 | the panel starts not streaming with an empty title, so no badge and no stats |
| LiveStream.StreamControl.OnTitleInput | src/components/LiveStream.tsx:79 | the new state is `EditTitle` of the old state |
| LiveStream.StreamControl.OnStreamButton | src/components/LiveStream.tsx:88 | the new state is `Toggle` of the old state |
| Navigation.EmittableIds | src/components/Navigation.tsx:13-16 | the bar's tab list `Tabs` has the ids 'dashboard' and 'library' in that order, which differ, so a click can emit exactly those two |
| Navigation.Buttons | src/components/Navigation.tsx:21-37 | one button per tab, in order, with the tab's id and caption; a button is 'default' iff its id is the active tab, 'ghost' otherwise |
| Navigation.OneActiveButton | src/components/Navigation.tsx:21-37 | for tabs with distinct ids, exactly one button is active when the active tab is one of the ids, and none otherwise |
| Navigation.BarHasOneActiveButton | src/components/Navigation.tsx:13-26 | the bar has one active button when the active tab is one of its ids and none otherwise |
| Navigation.Click | src/components/Navigation.tsx:28-31 | clicking the k-th button hands on the k-th tab's id, whichever tab is active, and that id is one the bar can emit |
| IndexPage.TabChange | src/pages/Index.tsx:40-44 | a tab change selects the given tab and hides the hero |
| IndexPage.TabChangeIdempotent | src/pages/Index.tsx:40-44 | applying the same tab change twice equals applying it once |
| IndexPage.HeroNeverReturns | src/pages/Index.tsx:11-44 | after any run of tab changes the hero is shown only if it was shown before and no change happened |
| IndexPage.RunEndsOnLastTab | src/pages/Index.tsx:40-44 | after a non-empty run of changes the active tab is the last one chosen and the hero is hidden |
| IndexPage.Render | src/pages/Index.tsx:31-52 | the hero is drawn iff `showHero`; the bar has one active button when the active tab is a bar tab and none otherwise; the main view is `renderActiveComponent`'s choice |
| IndexPage.HeroShownUntilFirstChange | src/pages/Index.tsx:33-35 | from the initial page the hero is drawn exactly until the first tab change |
| IndexPage.RenderActive | src/pages/Index.tsx:14-29 | 'library', 'live', 'music' and 'settings' select their views, each iff; 'dashboard' and every unrecognised id select the dashboard; total |
| IndexPage.OnlyNavigationViewsReachable | src/pages/Index.tsx:38-44 | when only the navigation bar drives the page, the active tab stays a bar tab and only the dashboard and library views are ever rendered |
| IndexPage.Page.constructor | src/pages/Index.tsx:11-12 | the page starts on 'dashboard' with the hero shown |
| IndexPage.Page.OnTabChange | src/pages/Index.tsx:40-44 | the new state is `TabChange` of the old state |
| DashboardPage.ActiveTab | src/pages/DashboardPage.tsx:9-12 | the tab is 'library' iff the path starts with '/library', and 'dashboard' otherwise |
| DashboardPage.LibraryPathsSelectLibrary | src/pages/DashboardPage.tsx:10 | '/library' followed by anything selects 'library' |
| DashboardPage.PrefixIsRaw | src/pages/DashboardPage.tsx:9-12 | '/library', '/library/5' and '/libraryX' select 'library'; '/', '' and '/Library' select 'dashboard' |
| DashboardPage.ActiveTabIsNavigationTab | src/pages/DashboardPage.tsx:9-16 | the derived tab is a navigation tab id, so exactly one bar button is active |
| DashboardPage.OnTabChange | src/pages/DashboardPage.tsx:16 | the tab-change callback leaves the path, and so the active tab, as they were |

## Left out

- Markup, layout and Tailwind classes are not modelled, apart from the classes that the colour maps and badges return. The `ui/*` components and the icons are libraries whose code is not part of this model.
- LiveStream.Render: the button class is modelled as its colour only ('bg-destructive' or 'bg-primary'), without the hover and glow classes.
- The filtered videos' cards are not modelled. Neither are the Play, Download and Share buttons, the LiveStream Settings button, or the "Start Creating" button. None of them has a handler.
- Display-only fixtures are not modelled: the dashboard's stats and recent videos, the stream statistics, and the device list. The library's video list is kept as `VideoLibrary.Fixture`.
- Searches with a non-empty term are not evaluated on the concrete fixture; the search properties are proved for every video list instead.
- `console.log` in the tab-change handlers is left out because it is output only.
- The path is a plain string parameter of `DashboardPage.ActiveTab`. The router's `useLocation` is not part of this model.
- Case mapping is ASCII only, not the Unicode mapping of `toLowerCase`.
- The hero banner's markup and random particle styles, the static settings form, the music panel's fixture rendering, and the library route wrapper have no state or rules to model.
