/**
 * The video library browser: a fixed list of videos, a search box and three
 * status filter buttons. A video is listed when its title or one of its tags
 * contains the search term (ignoring letter case) and its status passes the
 * filter; when nothing is listed an empty-state card explains why.
 */
module VideoLibrary {
  import opened Text
  import opened Filtering

  datatype Video = Video(
    id: int,
    title: string,
    duration: string,
    views: nat,
    created: string,
    tags: seq<string>,
    thumbnail: string,
    status: string)

  /** The filter value that lets every status through. */
  const AllFilter: string := "all"

  /** The videos the component holds. */
  const Fixture: seq<Video> := [
    Video(1, "Morning Coffee Run", "2:34", 156, "2 hours ago", ["lifestyle", "morning"], "/api/placeholder/400/225", "completed"),
    Video(2, "City Lights Walk", "4:12", 342, "1 day ago", ["urban", "night"], "/api/placeholder/400/225", "completed"),
    Video(3, "Sunset Beach Adventure", "3:45", 789, "3 days ago", ["nature", "sunset"], "/api/placeholder/400/225", "completed"),
    Video(4, "Downtown Food Tour", "5:23", 234, "5 days ago", ["food", "city"], "/api/placeholder/400/225", "completed"),
    Video(5, "Mountain Hiking Trail", "6:18", 567, "1 week ago", ["adventure", "nature"], "/api/placeholder/400/225", "completed"),
    Video(6, "Late Night Coding Session", "8:42", 123, "1 week ago", ["tech", "coding"], "/api/placeholder/400/225", "processing")
  ]

  // ---------------------------------------------------------------------
  // The matching rule
  // ---------------------------------------------------------------------

  /** The lower-cased title, or some lower-cased tag, includes the lower-cased term. */
  predicate MatchesSearch(v: Video, searchTerm: string)
    ensures searchTerm == "" ==> MatchesSearch(v, searchTerm)
  {
    var needle := LowerCase(searchTerm);
    Includes(LowerCase(v.title), needle) ||
    exists tag | tag in v.tags :: Includes(LowerCase(tag), needle)
  }

  /** The filter is 'all', or it names the video's status exactly. */
  predicate MatchesFilter(v: Video, filterType: string)
    ensures filterType == AllFilter ==> MatchesFilter(v, filterType)
    ensures filterType != AllFilter ==> (MatchesFilter(v, filterType) <==> v.status == filterType)
  {
    filterType == AllFilter || v.status == filterType
  }

  predicate Kept(v: Video, searchTerm: string, filterType: string) {
    MatchesSearch(v, searchTerm) && MatchesFilter(v, filterType)
  }

  /** The callback handed to `videos.filter`. */
  function Keeps(searchTerm: string, filterType: string): Video -> bool {
    v => Kept(v, searchTerm, filterType)
  }

  /** `filteredVideos`: the videos that pass both tests, in their original order. */
  function FilteredVideos(videos: seq<Video>, searchTerm: string, filterType: string): (r: seq<Video>)
    ensures |r| <= |videos|
  {
    Filter(videos, Keeps(searchTerm, filterType))
  }

  /**
   * Soundness and completeness: a video is listed exactly when it is in the
   * library, its title or a tag matches the search, and its status passes the
   * filter.
   */
  lemma FilteredMembership(videos: seq<Video>, searchTerm: string, filterType: string, v: Video)
    ensures v in FilteredVideos(videos, searchTerm, filterType) <==>
      v in videos && MatchesSearch(v, searchTerm) && MatchesFilter(v, filterType)
  {
    FilterMembership(videos, Keeps(searchTerm, filterType), v);
  }

  /**
   * Order preservation: the list is the library read at increasing positions,
   * exactly the positions whose video passes both tests. Nothing is reordered,
   * duplicated or invented.
   */
  lemma FilteredIsSubsequence(videos: seq<Video>, searchTerm: string, filterType: string)
    ensures var idx := KeptIndices(videos, Keeps(searchTerm, filterType));
      && |FilteredVideos(videos, searchTerm, filterType)| == |idx|
      && (forall k | 0 <= k < |idx| ::
            idx[k] < |videos| && FilteredVideos(videos, searchTerm, filterType)[k] == videos[idx[k]])
      && (forall k, l | 0 <= k < l < |idx| :: idx[k] < idx[l])
      && (forall i | 0 <= i < |videos| :: i in idx <==> Kept(videos[i], searchTerm, filterType))
  {
    var idx := KeptIndices(videos, Keeps(searchTerm, filterType));
    FilterIsSubsequence(videos, Keeps(searchTerm, filterType));
    forall i | 0 <= i < |videos| && i in idx
      ensures Kept(videos[i], searchTerm, filterType)
    {
      var k :| 0 <= k < |idx| && idx[k] == i;
    }
  }

  /** What each filter value means: 'all' imposes no status test, any other value the exact status. */
  lemma FilterTypeMeaning(videos: seq<Video>, searchTerm: string, filterType: string, v: Video)
    requires v in videos
    ensures filterType == AllFilter ==>
      (v in FilteredVideos(videos, searchTerm, filterType) <==> MatchesSearch(v, searchTerm))
    ensures filterType != AllFilter ==>
      (v in FilteredVideos(videos, searchTerm, filterType) <==> MatchesSearch(v, searchTerm) && v.status == filterType)
  {
    FilteredMembership(videos, searchTerm, filterType, v);
  }

  /** With the initial search term '' and filter 'all', every video is listed, in order. */
  lemma EmptySearchKeepsAll(videos: seq<Video>)
    ensures FilteredVideos(videos, "", AllFilter) == videos
  {
    FilterKeepsAll(videos, Keeps("", AllFilter));
  }

  /**
   * The two tests are independent: the list equals the result of the search
   * under 'all', filtered by status alone.
   */
  lemma SearchThenStatus(videos: seq<Video>, searchTerm: string, filterType: string)
    ensures FilteredVideos(videos, searchTerm, filterType) ==
      FilteredVideos(FilteredVideos(videos, searchTerm, AllFilter), "", filterType)
  {
    FilterConjunction(videos, Keeps(searchTerm, AllFilter), Keeps("", filterType), Keeps(searchTerm, filterType));
  }

  /** Two search terms with the same lower-cased form list the same videos. */
  lemma SearchIgnoresCase(videos: seq<Video>, term1: string, term2: string, filterType: string)
    requires LowerCase(term1) == LowerCase(term2)
    ensures FilteredVideos(videos, term1, filterType) == FilteredVideos(videos, term2, filterType)
  {
    FilterCongruent(videos, Keeps(term1, filterType), Keeps(term2, filterType));
  }

  /** Typing the search term in capitals lists the same videos. */
  lemma UpperCaseSearchSame(videos: seq<Video>, searchTerm: string, filterType: string)
    ensures FilteredVideos(videos, UpperCase(searchTerm), filterType) == FilteredVideos(videos, searchTerm, filterType)
  {
    LowerCaseOfUpperCase(searchTerm);
    SearchIgnoresCase(videos, UpperCase(searchTerm), searchTerm, filterType);
  }

  // ---------------------------------------------------------------------
  // The filter on the component's own videos
  // ---------------------------------------------------------------------

  /** Five 'completed' videos followed by one 'processing' video, as in `Fixture`. */
  predicate FiveCompletedThenProcessing(vs: seq<Video>) {
    |vs| == 6 &&
    (forall i | 0 <= i < 5 :: vs[i].status == "completed") &&
    vs[5].status == "processing"
  }

  /**
   * With no search term, 'processing' lists only the last video and
   * 'completed' lists the first five.
   */
  lemma StatusFiltersOfSix(vs: seq<Video>)
    requires FiveCompletedThenProcessing(vs)
    ensures FilteredVideos(vs, "", "processing") == [vs[5]]
    ensures FilteredVideos(vs, "", "completed") == vs[..5]
  {
    var head := vs[..5];
    assert vs == head + [vs[5]];
    FilterKeepsNone(head, Keeps("", "processing"));
    FilterAppend(head, vs[5], Keeps("", "processing"));
    FilterKeepsAll(head, Keeps("", "completed"));
    FilterAppend(head, vs[5], Keeps("", "completed"));
  }

  lemma FixtureStatuses()
    ensures FiveCompletedThenProcessing(Fixture)
  {
  }

  /**
   * The component's own videos under each button with an empty search: 'all'
   * lists all six, 'completed' the first five, 'processing' only the sixth,
   * so the "Your video library is empty" card never shows.
   */
  lemma FixtureUnderEachButton()
    ensures FilteredVideos(Fixture, "", AllFilter) == Fixture
    ensures FilteredVideos(Fixture, "", "completed") == Fixture[..5]
    ensures FilteredVideos(Fixture, "", "processing") == [Fixture[5]]
  {
    FixtureStatuses();
    StatusFiltersOfSix(Fixture);
    EmptySearchKeepsAll(Fixture);
  }

  // ---------------------------------------------------------------------
  // What the component shows
  // ---------------------------------------------------------------------

  /** The class of a video's status badge. */
  function StatusBadge(status: string): (cls: string)
    ensures cls == "bg-primary" <==> status == "completed"
    ensures cls != "bg-primary" ==> cls == "bg-accent"
  {
    if status == "completed" then "bg-primary" else "bg-accent"
  }

  datatype EmptyState = NoEmptyState | EmptyCard(message: string)

  /**
   * The card shown below the grid: present exactly when nothing is listed;
   * its message blames the search only when a search term was typed.
   */
  function EmptyStateFor(filtered: seq<Video>, searchTerm: string): (e: EmptyState)
    ensures e.EmptyCard? <==> filtered == []
    ensures e.EmptyCard? ==>
      (e.message == "Try adjusting your search terms" <==> searchTerm != "")
    ensures e.EmptyCard? ==>
      (e.message == "Your video library is empty" <==> searchTerm == "")
  {
    if filtered != [] then NoEmptyState
    else if searchTerm != "" then EmptyCard("Try adjusting your search terms")
    else EmptyCard("Your video library is empty")
  }

  /** The three filter buttons. */
  datatype FilterButton = AllButton | CompletedButton | ProcessingButton

  /** The filter value a button's click stores. */
  function FilterValue(b: FilterButton): (value: string)
    ensures value == AllFilter <==> b == AllButton
    ensures value == "completed" <==> b == CompletedButton
    ensures value == "processing" <==> b == ProcessingButton
  {
    match b
    case AllButton => AllFilter
    case CompletedButton => "completed"
    case ProcessingButton => "processing"
  }

  /** A button is drawn 'default' when the current filter is its value, 'outline' otherwise. */
  function ButtonVariant(b: FilterButton, filterType: string): (variant: string)
    ensures variant == "default" <==> filterType == FilterValue(b)
    ensures variant != "default" ==> variant == "outline"
  {
    if filterType == FilterValue(b) then "default" else "outline"
  }

  /** The buttons store distinct values: when the filter came from button `b`, `b` is the only one highlighted. */
  lemma OnlyClickedButtonHighlighted(filterType: string, b: FilterButton)
    requires FilterValue(b) == filterType
    ensures forall other :: ButtonVariant(other, filterType) == "default" <==> other == b
  {
  }

  // ---------------------------------------------------------------------
  // The component's state
  // ---------------------------------------------------------------------

  class LibraryView {
    var searchTerm: string
    var filterType: string
    const videos: seq<Video>

    /** The filter always holds a value some button stored. */
    ghost predicate Valid()
      reads this
    {
      exists b :: FilterValue(b) == filterType
    }

    /** The videos in the grid: never more than the library holds. */
    function Visible(): (shown: seq<Video>)
      reads this
      ensures |shown| <= |videos|
    {
      FilteredVideos(videos, searchTerm, filterType)
    }

    /** The count in the header: the whole library, whatever the search and filter. */
    function HeaderCount(): (n: nat)
      reads this
      ensures n == |videos|
      ensures |Visible()| <= n
    {
      |videos|
    }

    /** The card below the grid: shown exactly when the grid is empty. */
    function Card(): (e: EmptyState)
      reads this
      ensures e.EmptyCard? <==> Visible() == []
      ensures e.EmptyCard? ==>
        (e.message == "Your video library is empty" <==> searchTerm == "")
    {
      EmptyStateFor(Visible(), searchTerm)
    }

    /** The button drawn 'default': in a valid state there is exactly one. */
    function ActiveButton(): (b: FilterButton)
      requires Valid()
      reads this
      ensures forall other :: ButtonVariant(other, filterType) == "default" <==> other == b
    {
      if filterType == AllFilter then AllButton
      else if filterType == "completed" then CompletedButton
      else ProcessingButton
    }

    /**
     * The component starts with its six videos, no search term and the 'all'
     * filter, and lists every video.
     */
    constructor ()
      ensures Valid()
      ensures searchTerm == "" && filterType == AllFilter && videos == Fixture
      ensures FilteredVideos(videos, "", AllFilter) == videos
    {
      searchTerm := "";
      filterType := AllFilter;
      videos := Fixture;
      new;
      assert FilterValue(AllButton) == filterType;
      EmptySearchKeepsAll(Fixture);
    }

    /** Typing in the search box replaces the term and keeps the filter. */
    method OnSearchInput(value: string)
      requires Valid()
      modifies this
      ensures Valid()
      ensures searchTerm == value && filterType == old(filterType)
      ensures Visible() == FilteredVideos(videos, value, old(filterType))
    {
      searchTerm := value;
    }

    /** Clicking a filter button stores that button's value and keeps the search term. */
    method OnFilterClick(b: FilterButton)
      modifies this
      ensures Valid()
      ensures filterType == FilterValue(b) && searchTerm == old(searchTerm)
      ensures ButtonVariant(b, filterType) == "default"
      ensures forall other :: other != b ==> ButtonVariant(other, filterType) == "outline"
    {
      filterType := FilterValue(b);
    }
  }
}
