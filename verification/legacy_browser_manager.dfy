/**
 * The earlier browser manager: the same page pool, but every browser is a
 * Firefox launched with default options, every page uses one fixed proxy,
 * and Solve releases the page only when driving it returns normally.
 */
module LegacyBrowsers {
  import opened Common
  import opened Models
  import opened PagePool

  /** BrowserRestart is carried but never read. */
  datatype BrowserManagerConfiguration = BrowserManagerConfiguration(pagePerBrowserInstance: nat, browserRestart: bool)

  /** The proxy every page is opened with. */
  const FixedProxy := Proxy("http://myproxy.com:3128", Some("user"), Some("pwd"))

  /** The library calls an acquire makes: a launch when no browser is reused, then the page. */
  function AcquireEvents(configuration: BrowserManagerConfiguration, cs: seq<PageContext>,
                         newBrowser: BrowserId, newPage: PageId): (e: seq<Event>)
    ensures SelectBrowser(cs, configuration.pagePerBrowserInstance).None? ==>
      e == [Launched(newBrowser, Firefox, None), Opened(newBrowser, newPage, Some(FixedProxy))]
    ensures SelectBrowser(cs, configuration.pagePerBrowserInstance).Some? ==>
      e == [Opened(SelectBrowser(cs, configuration.pagePerBrowserInstance).value, newPage, Some(FixedProxy))]
  {
    var ctx := Acquire(cs, configuration.pagePerBrowserInstance, newBrowser, newPage).1;
    (if SelectBrowser(cs, configuration.pagePerBrowserInstance).None? then [Launched(newBrowser, Firefox, None)] else [])
    + [Opened(ctx.browser, newPage, Some(FixedProxy))]
  }

  class BrowserManager
  {
    const configuration: BrowserManagerConfiguration
    /** The tracked page contexts, in the order they were acquired. */
    var contexts: seq<PageContext>
    /** Pages that report themselves closed. */
    var closed: set<PageId>
    ghost var launched: set<BrowserId>
    ghost var openedPages: set<PageId>
    ghost var disposed: set<BrowserId>
    /** Everything done to the automation library, in order. */
    ghost var trace: seq<Event>

    ghost predicate Valid()
      reads this
    {
      Tracked(contexts, configuration.pagePerBrowserInstance, launched, openedPages, disposed, closed)
    }

    constructor (configuration: BrowserManagerConfiguration)
      ensures Valid()
      ensures this.configuration == configuration
      ensures contexts == [] && closed == {} && launched == {} && openedPages == {} && disposed == {} && trace == []
    {
      this.configuration := configuration;
      contexts := [];
      closed := {};
      launched := {};
      openedPages := {};
      disposed := {};
      trace := [];
    }

    /** Launches browser b: Firefox with default options. */
    method Launch(b: BrowserId)
      modifies this
      ensures launched == old(launched) + {b} && trace == old(trace) + [Launched(b, Firefox, None)]
      ensures contexts == old(contexts) && openedPages == old(openedPages)
      ensures closed == old(closed) && disposed == old(disposed)
    {
      launched := launched + {b};
      trace := trace + [Launched(b, Firefox, None)];
    }

    /** Opens page `page` on browser b with the given proxy. */
    method OpenPage(b: BrowserId, page: PageId, proxy: Option<Proxy>)
      modifies this
      ensures openedPages == old(openedPages) + {page} && trace == old(trace) + [Opened(b, page, proxy)]
      ensures contexts == old(contexts) && launched == old(launched)
      ensures closed == old(closed) && disposed == old(disposed)
    {
      openedPages := openedPages + {page};
      trace := trace + [Opened(b, page, proxy)];
    }

    /**
     * Acquires a page. `newBrowser` is the id a launch would produce and
     * `newPage` the id of the page opened.
     */
    method GetNextPageContext(newBrowser: BrowserId, newPage: PageId) returns (ctx: PageContext)
      requires Valid()
      requires newBrowser !in launched && newPage !in openedPages
      modifies this
      ensures Valid()
      ensures (contexts, ctx) == Acquire(old(contexts), configuration.pagePerBrowserInstance, newBrowser, newPage)
      ensures closed == old(closed) && disposed == old(disposed) && openedPages == old(openedPages) + {newPage}
      ensures launched == if SelectBrowser(old(contexts), configuration.pagePerBrowserInstance).None?
                          then old(launched) + {newBrowser} else old(launched)
      ensures trace == old(trace) + AcquireEvents(configuration, old(contexts), newBrowser, newPage)
    {
      var cap := configuration.pagePerBrowserInstance;
      var b: BrowserId;
      match SelectBrowser(contexts, cap) {
        case Some(x) =>
          b := x;
        case None =>
          b := newBrowser;
          Launch(b);
      }
      var activePageCount := PageCount(contexts, b);
      OpenPage(b, newPage, Some(FixedProxy));
      ctx := PageContext(b, newPage, activePageCount + 1 >= cap);
      assert Acquire(old(contexts), cap, newBrowser, newPage).1 == ctx;
      AcquireKeepsTracked(contexts, cap, old(launched), old(openedPages), disposed, closed, newBrowser, newPage);
      contexts := SpreadFlag(contexts + [ctx], b, ctx.dispose);
    }

    /**
     * Releases the tracked page `page`: closes it unless it is already closed,
     * disposes its browser when the page is flagged and is the browser's last
     * tracked page, and untracks it. The page is named by id, which stands for
     * the tracked context object, so the flag read is its current one.
     */
    method DisposePageContext(page: PageId)
      requires Valid() && page in PagesOf(contexts)
      modifies this
      ensures Valid()
      ensures contexts == RemovePage(old(contexts), page)
      ensures closed == old(closed) + {page}
      ensures launched == old(launched) && openedPages == old(openedPages)
      ensures var b := old(contexts)[IndexOfPage(old(contexts), page)].browser;
        && (ReleaseDisposes(old(contexts), page) ==> b !in old(disposed) && disposed == old(disposed) + {b})
        && (!ReleaseDisposes(old(contexts), page) ==> disposed == old(disposed))
        && trace == old(trace) + ReleaseEvents(old(contexts), page, old(closed))
    {
      var ctx := contexts[IndexOfPage(contexts, page)];
      ReleaseKeepsTracked(contexts, configuration.pagePerBrowserInstance, launched, openedPages, disposed, closed, page);
      ClosePage(page);
      if ctx.dispose && PageCount(contexts, ctx.browser) <= 1 {
        disposed := disposed + {ctx.browser};
        trace := trace + [Disposed(ctx.browser)];
      }
      contexts := RemovePage(contexts, page);
    }

    /** Closes the page unless it is already closed; nothing else changes. */
    method ClosePage(page: PageId)
      modifies this
      ensures contexts == old(contexts) && launched == old(launched) && openedPages == old(openedPages)
      ensures disposed == old(disposed)
      ensures closed == old(closed) + {page}
      ensures trace == old(trace) + (if page in old(closed) then [] else [Closed(page)])
    {
      if page !in closed {
        closed := closed + {page};
        trace := trace + [Closed(page)];
      }
    }

    /**
     * Solves a command on a pooled page. Anything but SolveCaptcha is rejected
     * before a page is acquired. The page is released after a normal return
     * only: a fault propagates as it is and the page stays tracked and open.
     */
    method Solve(command: Command, outcome: PageOutcome, newBrowser: BrowserId, newPage: PageId)
      returns (r: Result<string, SolveError>)
      requires Valid()
      requires newBrowser !in launched && newPage !in openedPages
      modifies this
      ensures Valid()
      ensures command.OtherCommand? ==>
        && r == Err(InvalidCast) && contexts == old(contexts) && trace == old(trace) && launched == old(launched)
        && closed == old(closed) && disposed == old(disposed) && openedPages == old(openedPages)
      ensures command.SolveCaptcha? ==>
        && openedPages == old(openedPages) + {newPage}
        && launched == (if SelectBrowser(old(contexts), configuration.pagePerBrowserInstance).None?
                        then old(launched) + {newBrowser} else old(launched))
      ensures command.SolveCaptcha? && outcome.Token? ==>
        var (acquired, ctx) := Acquire(old(contexts), configuration.pagePerBrowserInstance, newBrowser, newPage);
        && r == Ok(outcome.value)
        && newPage in PagesOf(acquired) && contexts == RemovePage(acquired, newPage)
        && newPage !in PagesOf(contexts)
        && newPage !in old(closed) && closed == old(closed) + {newPage}
        && (ReleaseDisposes(acquired, newPage) ==> ctx.browser !in old(disposed) && disposed == old(disposed) + {ctx.browser})
        && (!ReleaseDisposes(acquired, newPage) ==> disposed == old(disposed))
        && trace == old(trace) + AcquireEvents(configuration, old(contexts), newBrowser, newPage)
                    + ReleaseEvents(acquired, newPage, old(closed))
      ensures command.SolveCaptcha? && outcome.PageFault? ==>
        && r == Err(SolveException(false))
        && newPage !in closed && newPage in PagesOf(contexts)
        && contexts == Acquire(old(contexts), configuration.pagePerBrowserInstance, newBrowser, newPage).0
        && closed == old(closed) && disposed == old(disposed)
        && trace == old(trace) + AcquireEvents(configuration, old(contexts), newBrowser, newPage)
    {
      if command.OtherCommand? {
        return Err(InvalidCast);
      }
      ghost var contexts0, trace0 := contexts, trace;
      AcquiredPageIsLast(contexts, configuration.pagePerBrowserInstance, newBrowser, newPage);
      var ctx := GetNextPageContext(newBrowser, newPage);
      ghost var acquired := contexts;
      assert trace == trace0 + AcquireEvents(configuration, contexts0, newBrowser, newPage);
      assert acquired[IndexOfPage(acquired, newPage)] == ctx;
      match outcome {
        case Token(value) =>
          ReleaseUntracksPage(contexts, newPage);
          DisposePageContext(newPage);
          r := Ok(value);
        case PageFault =>
          r := Err(SolveException(false));
      }
    }

    /**
     * Shutdown: for each tracked browser, in the order of its first tracked
     * page, closes its pages that are still open and then disposes it. The
     * tracked list itself is left as it is.
     */
    method DisposeAsync()
      requires Valid()
      modifies this
      ensures contexts == old(contexts) && launched == old(launched) && openedPages == old(openedPages)
      ensures trace == old(trace) + Teardown(contexts, DistinctBrowsers(contexts), old(closed))
      ensures closed == old(closed) + PagesOf(contexts)
      ensures disposed == old(disposed) + BrowsersOf(contexts)
    {
      var groups := DistinctBrowsers(contexts);
      ghost var closed0, trace0, disposed0 := closed, trace, disposed;
      ghost var done: set<BrowserId> := {};
      PagesInNone(contexts);
      var g := 0;
      while g < |groups|
        invariant 0 <= g <= |groups|
        invariant contexts == old(contexts) && launched == old(launched) && openedPages == old(openedPages)
        invariant DistinctPages(contexts)
        invariant forall x :: x in done <==> x in groups[..g]
        invariant trace == trace0 + Teardown(contexts, groups[..g], closed0)
        invariant closed == closed0 + PagesIn(contexts, done)
        invariant disposed == disposed0 + done
      {
        var b := groups[g];
        assert b !in done;
        DisposeNextGroup(groups, g, done, closed0, trace0, disposed0);
        done := done + {b};
        g := g + 1;
      }
      assert groups[..g] == groups;
      assert done == BrowsersOf(contexts);
      PagesInAll(contexts, done);
    }

    /** One round of the shutdown loop: the next group is closed and disposed. */
    method DisposeNextGroup(groups: seq<BrowserId>, g: nat, ghost done: set<BrowserId>,
                            ghost closed0: set<PageId>, ghost trace0: seq<Event>, ghost disposed0: set<BrowserId>)
      requires g < |groups| && groups[g] !in done && DistinctPages(contexts)
      requires trace == trace0 + Teardown(contexts, groups[..g], closed0)
      requires closed == closed0 + PagesIn(contexts, done)
      requires disposed == disposed0 + done
      modifies this
      ensures contexts == old(contexts) && launched == old(launched) && openedPages == old(openedPages)
      ensures trace == trace0 + Teardown(contexts, groups[..g + 1], closed0)
      ensures closed == closed0 + PagesIn(contexts, done + {groups[g]})
      ensures disposed == disposed0 + (done + {groups[g]})
    {
      GroupClosesAfterOthers(contexts, done, groups[g], closed0);
      TeardownStep(contexts, groups, g, closed0);
      DisposeGroup(groups[g]);
    }

    /** Closes the still-open tracked pages of browser b, then disposes b. */
    method DisposeGroup(b: BrowserId)
      requires DistinctPages(contexts)
      modifies this
      ensures contexts == old(contexts) && launched == old(launched) && openedPages == old(openedPages)
      ensures disposed == old(disposed) + {b}
      ensures closed == old(closed) + PagesIn(contexts, {b})
      ensures trace == old(trace) + GroupCloses(contexts, b, old(closed)) + [Disposed(b)]
    {
      CloseGroupPages(b);
      disposed := disposed + {b};
      trace := trace + [Disposed(b)];
    }

    /** Closes, in list order, every tracked page of browser b that is still open. */
    method CloseGroupPages(b: BrowserId)
      requires DistinctPages(contexts)
      modifies this
      ensures contexts == old(contexts) && launched == old(launched) && openedPages == old(openedPages)
      ensures disposed == old(disposed)
      ensures closed == old(closed) + PagesIn(contexts, {b})
      ensures trace == old(trace) + GroupCloses(contexts, b, old(closed))
    {
      var i := 0;
      while i < |contexts|
        invariant 0 <= i <= |contexts|
        invariant contexts == old(contexts) && launched == old(launched) && openedPages == old(openedPages)
        invariant disposed == old(disposed)
        invariant closed == old(closed) + PagesIn(contexts[..i], {b})
        invariant trace == old(trace) + GroupCloses(contexts[..i], b, old(closed))
      {
        var ctx := contexts[i];
        assert contexts[..i + 1][..i] == contexts[..i];
        PagesInGrow(contexts, {b}, i);
        PageNotInPrefix(contexts, {b}, i);
        if ctx.browser == b && ctx.page !in closed {
          closed := closed + {ctx.page};
          trace := trace + [Closed(ctx.page)];
        }
        i := i + 1;
      }
      assert contexts[..i] == contexts;
    }
  }
}
