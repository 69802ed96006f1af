/** Whole-page runs of the feed: a fetch followed by clicks, stated by what
    the page shows at each step. */
module FeedScenarios {
  import opened Projects
  import opened ProjectFeed

  /** Twenty repositories, no filter: 9 cards with load-more shown, then 18
      still shown, then all 20 with the button hidden. */
  method TwentyProjectsPaging(repo: RawRepo)
    returns (first: nat, firstVisible: bool, second: nat, secondVisible: bool, third: nat, thirdVisible: bool)
    ensures first == 9 && firstVisible
    ensures second == 18 && secondVisible
    ensures third == 20 && !thirdVisible
  {
    var feed := new Feed(true);
    feed.FetchGitHubProjects(RepoList(seq(20, _ => repo)));
    first, firstVisible := |feed.cards|, feed.loadMoreVisible;
    feed.LoadMore("all");
    second, secondVisible := |feed.cards|, feed.loadMoreVisible;
    feed.LoadMore("all");
    third, thirdVisible := |feed.cards|, feed.loadMoreVisible;
  }

  /** A filter followed by any number of load-more clicks on the same key:
      the cards are always the first `displayed` projects of the view, never
      more than the view has, and the button shows exactly when some are left. */
  method FilterThenLoadMore(repos: seq<RawRepo>, key: string, clicks: nat)
    returns (shownCards: seq<Card>, view: seq<Project>, visible: bool)
    ensures view == View(NormalizeAll(repos), key)
    ensures |shownCards| <= |view|
    ensures shownCards == CardsFor(view[..|shownCards|])
    ensures visible <==> |shownCards| < |view|
    ensures clicks * PageSize + PageSize <= |view| ==> |shownCards| == clicks * PageSize + PageSize
    ensures |view| <= clicks * PageSize + PageSize ==> |shownCards| == |view|
  {
    var feed := new Feed(true);
    feed.FetchGitHubProjects(RepoList(repos));
    feed.Filter(key);
    view := View(feed.allProjects, key);
    var n := 0;
    while n < clicks
      invariant n <= clicks
      invariant feed.allProjects == NormalizeAll(repos)
      invariant feed.ShowsPrefixOf(key)
      invariant feed.displayed == Min(n * PageSize + PageSize, |view|)
      invariant |feed.cards| == feed.displayed <= |view|
    {
      ghost var before := feed.displayed;
      feed.LoadMore(key);
      NextPageCount(view, before, n);
      n := n + 1;
    }
    shownCards, visible := feed.cards, feed.loadMoreVisible;
  }

  /** After the first page and `n` more, one more page brings the counter
      to `n + 1` more pages, or to the end of the view. */
  lemma NextPageCount(view: seq<Project>, shown: nat, n: nat)
    requires shown == Min(n * PageSize + PageSize, |view|)
    ensures shown + |Slice(view, shown, shown + PageSize)| ==
      Min((n + 1) * PageSize + PageSize, |view|)
  {
  }

  /** A failed fetch or a body that is not a list: one fallback card, no
      projects, the counter at 0, and the button left as the markup had it. */
  method FetchFailure(response: Response, buttonVisible: bool)
    returns (shownCards: seq<Card>, projectCount: nat, displayed: nat, visible: bool)
    requires !response.RepoList?
    ensures shownCards == [FallbackCard]
    ensures projectCount == 0 && displayed == 0
    ensures visible == buttonVisible
  {
    var feed := new Feed(buttonVisible);
    feed.FetchGitHubProjects(response);
    shownCards, projectCount, displayed, visible := feed.cards, |feed.allProjects|, feed.displayed, feed.loadMoreVisible;
  }

  /** As written, a first page of one to nine repositories shows every
      project and still offers load-more. */
  method SmallFirstPage(repos: seq<RawRepo>)
    returns (shown: nat, total: nat, visible: bool)
    requires 1 <= |repos| <= PageSize
    ensures shown == total == |repos|
    ensures visible
  {
    var feed := new Feed(false);
    feed.FetchGitHubProjects(RepoList(repos));
    shown, total, visible := |feed.cards|, |feed.allProjects|, feed.loadMoreVisible;
  }

  /** With the counter set from the page actually shown, load-more is
      offered exactly when projects remain, whatever the list's length. */
  method SmallFirstPageFixed(repos: seq<RawRepo>)
    returns (shown: nat, total: nat, visible: bool)
    ensures total == |repos| && shown == Min(PageSize, total)
    ensures visible <==> shown < total
  {
    var feed := new Feed(false);
    feed.OnFetchSuccessFixed(repos);
    shown, total, visible := |feed.cards|, |feed.allProjects|, feed.loadMoreVisible;
  }
}
