/** The project feed: the fetched project list, the counter of shown
    projects, the cards in the projects container and the visibility of the
    "load more" button, with the handlers that change them. */
module ProjectFeed {
  import opened Projects

  /** `projectsPerLoad`. */
  const PageSize: nat := 9

  function Min(a: int, b: int): int {
    if a <= b then a else b
  }

  /** A child of the projects container: the card for one project, with the
      category classes and the swatch colour it is drawn with, or the single
      card shown when the projects could not be loaded. */
  datatype Card = ProjectCard(project: Project, tags: seq<string>, color: string) | FallbackCard

  function CardFor(p: Project): Card {
    ProjectCard(p, Categorize(p), LanguageColor(p.language))
  }

  /** One card per project, in order. */
  function CardsFor(ps: seq<Project>): (cs: seq<Card>)
    ensures |cs| == |ps|
    ensures forall i :: 0 <= i < |ps| ==> cs[i] == CardFor(ps[i])
  {
    seq(|ps|, i requires 0 <= i < |ps| => CardFor(ps[i]))
  }

  /** `s.slice(start, end)` for `0 <= start`: both ends are clamped to the
      length, and an end before the start gives nothing. */
  function Slice<T>(s: seq<T>, start: nat, end: nat): (r: seq<T>)
    ensures start <= end <= |s| ==> r == s[start..end]
    ensures start <= |s| <= end ==> r == s[start..]
    ensures |s| <= start ==> r == []
    ensures end <= start ==> r == []
  {
    var lo := Min(start, |s|);
    var hi := Min(end, |s|);
    if lo <= hi then s[lo..hi] else []
  }

  /** What the fetch produced: a list of repository records, or a body that
      is not a list, or a failed request or unparsable body. */
  datatype Response = RepoList(repos: seq<RawRepo>) | NotAList | RequestFailed

  class Feed {
    /** `allProjects` */
    var allProjects: seq<Project>
    /** `displayedProjects` */
    var displayed: nat
    /** the children of the projects container */
    var cards: seq<Card>
    /** whether the load-more button is displayed */
    var loadMoreVisible: bool

    /** The cards are the first `displayed` projects of the view selected by
        `key`, and load-more is offered exactly when the view has more. */
    ghost predicate ShowsPrefixOf(key: string)
      reads this
    {
      var view := View(allProjects, key);
      displayed <= |view| && cards == CardsFor(view[..displayed]) && loadMoreVisible == (displayed < |view|)
    }

    /** The page before the fetch: no projects, an empty container, and the
        button as the page's markup has it. */
    constructor (buttonVisible: bool)
      ensures allProjects == [] && displayed == 0 && cards == [] && loadMoreVisible == buttonVisible
    {
      allProjects := [];
      displayed := 0;
      cards := [];
      loadMoreVisible := buttonVisible;
    }

    /** `displayProjects`: replaces the cards by one card per project, then
        sets the button from the counter as it stands and the length of the
        whole list, not of the list being shown. */
    method DisplayProjects(projects: seq<Project>)
      modifies this`cards, this`loadMoreVisible
      ensures cards == CardsFor(projects)
      ensures loadMoreVisible == (displayed < |allProjects|)
    {
      cards := [];
      var i := 0;
      while i < |projects|
        invariant 0 <= i <= |projects|
        invariant cards == CardsFor(projects[..i])
      {
        CardsForStep(projects, i);
        cards := cards + [CardFor(projects[i])];
        i := i + 1;
      }
      assert projects[..i] == projects;
      if displayed >= |allProjects| {
        loadMoreVisible := false;
      } else {
        loadMoreVisible := true;
      }
    }

    /** `showErrorMessage`: the container holds only the fallback card. */
    method ShowErrorMessage()
      modifies this`cards
      ensures cards == [FallbackCard]
    {
      cards := [FallbackCard];
    }

    /** The list branch of `fetchGitHubProjects`: normalise every record,
        show the first page, then set the counter to the page size whatever
        the list's length. */
    method OnFetchSuccess(repos: seq<RawRepo>)
      modifies this
      ensures allProjects == NormalizeAll(repos)
      ensures cards == CardsFor(allProjects[..Min(PageSize, |allProjects|)])
      ensures displayed == PageSize
      ensures loadMoreVisible == (old(displayed) < |allProjects|)
      ensures old(displayed) == 0 && |allProjects| > PageSize ==> ShowsPrefixOf("all")
    {
      allProjects := NormalizeAll(repos);
      DisplayProjects(Slice(allProjects, 0, PageSize));
      displayed := PageSize;
    }

    /** The list branch as evidently intended: the counter is the number of
        cards shown, set before the button is, so that the first page keeps
        the same invariant as a filter does. */
    method OnFetchSuccessFixed(repos: seq<RawRepo>)
      modifies this
      ensures allProjects == NormalizeAll(repos)
      ensures displayed == Min(PageSize, |allProjects|)
      ensures ShowsPrefixOf("all")
    {
      allProjects := NormalizeAll(repos);
      displayed := Min(PageSize, |allProjects|);
      DisplayProjects(Slice(allProjects, 0, PageSize));
    }

    /** `fetchGitHubProjects`, given what the request produced. Every failure
        shows the fallback card and leaves the rest of the page as it was. */
    method FetchGitHubProjects(response: Response)
      modifies this
      ensures response.RepoList? ==>
        allProjects == NormalizeAll(response.repos) &&
        cards == CardsFor(allProjects[..Min(PageSize, |allProjects|)]) &&
        displayed == PageSize &&
        loadMoreVisible == (old(displayed) < |allProjects|)
      ensures !response.RepoList? ==>
        cards == [FallbackCard] && allProjects == old(allProjects) &&
        displayed == old(displayed) && loadMoreVisible == old(loadMoreVisible)
    {
      match response
      case RepoList(repos) =>
        OnFetchSuccess(repos);
      case NotAList =>
        ShowErrorMessage();
      case RequestFailed =>
        ShowErrorMessage();
    }

    /** `filterProjects`: show the first page of the view for `key`, count
        what is shown, and offer load-more exactly when the view has more. */
    method Filter(key: string)
      modifies this
      ensures allProjects == old(allProjects)
      ensures displayed == Min(PageSize, |View(allProjects, key)|)
      ensures cards == CardsFor(View(allProjects, key)[..displayed])
      ensures loadMoreVisible <==> displayed < |View(allProjects, key)|
      ensures ShowsPrefixOf(key)
    {
      var view := View(allProjects, key);
      DisplayProjects(Slice(view, 0, PageSize));
      displayed := Min(PageSize, |view|);
      if displayed >= |view| {
        loadMoreVisible := false;
      } else {
        loadMoreVisible := true;
      }
    }

    /** The load-more click handler: append the next page of the view for
        the active filter, advance the counter by what was appended, and
        hide the button once the view is exhausted. It never shows it. */
    method LoadMore(activeKey: string)
      modifies this
      ensures allProjects == old(allProjects)
      ensures var batch := Slice(View(allProjects, activeKey), old(displayed), old(displayed) + PageSize);
        cards == old(cards) + CardsFor(batch) && displayed == old(displayed) + |batch|
      ensures loadMoreVisible == (old(loadMoreVisible) && displayed < |View(allProjects, activeKey)|)
      ensures old(displayed) >= |View(allProjects, activeKey)| ==>
        cards == old(cards) && displayed == old(displayed) && !loadMoreVisible
      ensures old(ShowsPrefixOf(activeKey)) ==> ShowsPrefixOf(activeKey)
    {
      var view := View(allProjects, activeKey);
      var batch := Slice(view, displayed, displayed + PageSize);
      AppendCards(batch);
      displayed := displayed + |batch|;
      if displayed >= |view| {
        loadMoreVisible := false;
      }
      if old(ShowsPrefixOf(activeKey)) {
        NextPageExtendsPrefix(view, old(displayed));
        CardsForAppend(view[..old(displayed)], batch);
      }
    }

    /** The `forEach` that appends one card per project after the existing ones. */
    method AppendCards(batch: seq<Project>)
      modifies this`cards
      ensures cards == old(cards) + CardsFor(batch)
    {
      var i := 0;
      while i < |batch|
        invariant 0 <= i <= |batch|
        invariant cards == old(cards) + CardsFor(batch[..i])
      {
        CardsForStep(batch, i);
        cards := cards + [CardFor(batch[i])];
        i := i + 1;
      }
      assert batch[..i] == batch;
    }
  }

  /** The shown prefix followed by the next page is a longer prefix. */
  lemma NextPageExtendsPrefix(view: seq<Project>, shown: nat)
    requires shown <= |view|
    ensures var batch := Slice(view, shown, shown + PageSize);
      shown + |batch| <= |view| && view[..shown + |batch|] == view[..shown] + batch
  {
  }

  /** One more project, one more card at the end. */
  lemma CardsForStep(ps: seq<Project>, i: nat)
    requires i < |ps|
    ensures CardsFor(ps[..i + 1]) == CardsFor(ps[..i]) + [CardFor(ps[i])]
  {
    assert ps[..i + 1] == ps[..i] + [ps[i]];
    CardsForAppend(ps[..i], [ps[i]]);
  }

  /** Cards for two lists one after the other are the cards for each. */
  lemma CardsForAppend(a: seq<Project>, b: seq<Project>)
    ensures CardsFor(a + b) == CardsFor(a) + CardsFor(b)
  {
  }
}
