/**
 * The page pool shared by both browser managers, stated on values: the list
 * of tracked page contexts, how a browser is chosen for a new page, how the
 * "browser is full" flag is computed and spread, what releasing a page does,
 * and the order of the shutdown teardown. Browsers and pages are abstract ids.
 */
module PagePool {
  import opened Common

  type BrowserId = nat
  type PageId = nat

  /** A tracked page, the browser it runs in, and the flag "dispose the browser once drained". */
  datatype PageContext = PageContext(browser: BrowserId, page: PageId, dispose: bool)

  /** Proxy record handed to the automation library. */
  datatype Proxy = Proxy(server: string, username: Option<string>, password: Option<string>)

  datatype Engine = Chromium | Firefox

  datatype LaunchOptions = LaunchOptions(headless: bool, proxy: Option<Proxy>)

  /** The effects the pool has on the automation library, in the order they happen. */
  datatype Event =
    | Launched(browser: BrowserId, engine: Engine, options: Option<LaunchOptions>)
    | Opened(browser: BrowserId, page: PageId, proxy: Option<Proxy>)
    | Closed(page: PageId)
    | Disposed(browser: BrowserId)

  /** What driving a page through a challenge gives: a token, or an exception. */
  datatype PageOutcome = Token(value: string) | PageFault

  /** Exceptions a browser manager's Solve throws. */
  datatype SolveError = InvalidCast | SolveException(wrapped: bool)

  function BrowsersOf(cs: seq<PageContext>): set<BrowserId>
  {
    set i | 0 <= i < |cs| :: cs[i].browser
  }

  function PagesOf(cs: seq<PageContext>): set<PageId>
  {
    set i | 0 <= i < |cs| :: cs[i].page
  }

  /** Number of tracked pages running in browser b. */
  function PageCount(cs: seq<PageContext>, b: BrowserId): (n: nat)
    ensures n <= |cs|
    ensures n == 0 <==> forall i :: 0 <= i < |cs| ==> cs[i].browser != b
  {
    if cs == [] then 0
    else PageCount(cs[..|cs| - 1], b) + (if cs[|cs| - 1].browser == b then 1 else 0)
  }

  lemma {:induction false} PageCountConcat(xs: seq<PageContext>, ys: seq<PageContext>, b: BrowserId)
    ensures PageCount(xs + ys, b) == PageCount(xs, b) + PageCount(ys, b)
  {
    if ys != [] {
      var n := |ys| - 1;
      assert (xs + ys)[..|xs + ys| - 1] == xs + ys[..n];
      PageCountConcat(xs, ys[..n], b);
    } else {
      assert xs + ys == xs;
    }
  }

  /** Counting looks only at the browsers, so rewriting flags does not change it. */
  lemma {:induction false} PageCountSameBrowsers(xs: seq<PageContext>, ys: seq<PageContext>, b: BrowserId)
    requires |xs| == |ys|
    requires forall i :: 0 <= i < |xs| ==> xs[i].browser == ys[i].browser
    ensures PageCount(xs, b) == PageCount(ys, b)
  {
    if xs != [] {
      var n := |xs| - 1;
      PageCountSameBrowsers(xs[..n], ys[..n], b);
    }
  }

  ghost predicate DistinctPages(cs: seq<PageContext>)
  {
    forall i, j :: 0 <= i < j < |cs| ==> cs[i].page != cs[j].page
  }

  /** All tracked pages of one browser carry the same flag. */
  ghost predicate UniformFlags(cs: seq<PageContext>)
  {
    forall i, j :: 0 <= i < |cs| && 0 <= j < |cs| && cs[i].browser == cs[j].browser ==>
      cs[i].dispose == cs[j].dispose
  }

  /** No browser holds more than max(cap, 1) tracked pages. */
  ghost predicate WithinCap(cs: seq<PageContext>, cap: nat)
  {
    forall i :: 0 <= i < |cs| ==> PageCount(cs, cs[i].browser) <= AtLeastOne(cap)
  }

  /** An unflagged browser is below the cap (a flagged one may have drained below it). */
  ghost predicate UnflaggedBelowCap(cs: seq<PageContext>, cap: nat)
  {
    forall i :: 0 <= i < |cs| && !cs[i].dispose ==> PageCount(cs, cs[i].browser) < cap
  }

  ghost predicate PoolInv(cs: seq<PageContext>, cap: nat)
  {
    DistinctPages(cs) && UniformFlags(cs) && WithinCap(cs, cap) && UnflaggedBelowCap(cs, cap)
  }

  /** The reuse filter: the page is unflagged and its browser is below the cap. */
  predicate Eligible(cs: seq<PageContext>, cap: nat, i: nat)
    requires i < |cs|
  {
    !cs[i].dispose && PageCount(cs, cs[i].browser) < cap
  }

  /** Index of the first eligible page at or after `from`, in list order. */
  function FirstEligible(cs: seq<PageContext>, cap: nat, from: nat): (k: Option<nat>)
    requires from <= |cs|
    ensures k.Some? ==>
      from <= k.value < |cs| && Eligible(cs, cap, k.value)
      && forall j :: from <= j < k.value ==> !Eligible(cs, cap, j)
    ensures k.None? ==> forall j :: from <= j < |cs| ==> !Eligible(cs, cap, j)
    decreases |cs| - from
  {
    if from == |cs| then None
    else if Eligible(cs, cap, from) then Some(from)
    else FirstEligible(cs, cap, from + 1)
  }

  /** The browser to reuse: that of the first eligible tracked page, if any. */
  function SelectBrowser(cs: seq<PageContext>, cap: nat): (b: Option<BrowserId>)
    ensures b.None? <==> forall i :: 0 <= i < |cs| ==> !Eligible(cs, cap, i)
    ensures b.Some? ==> b.value in BrowsersOf(cs) && PageCount(cs, b.value) < cap
  {
    match FirstEligible(cs, cap, 0)
    case None => None
    case Some(k) => Some(cs[k].browser)
  }

  /** The list with every page of browser b given flag `flag`. */
  function SetFlag(cs: seq<PageContext>, b: BrowserId, flag: bool): (r: seq<PageContext>)
    ensures |r| == |cs|
    ensures forall i :: 0 <= i < |r| ==> r[i].browser == cs[i].browser && r[i].page == cs[i].page
    ensures forall i :: 0 <= i < |r| && r[i].browser == b ==> r[i].dispose == flag
    ensures forall i :: 0 <= i < |r| && r[i].browser != b ==> r[i] == cs[i]
  {
    seq(|cs|, i requires 0 <= i < |cs| => if cs[i].browser == b then cs[i].(dispose := flag) else cs[i])
  }

  /**
   * Acquiring a page: reuse the selected browser or take the freshly launched
   * one, flag the new page iff the browser's count after adding it reaches the
   * cap, append it and copy its flag to every page of that browser.
   */
  function Acquire(cs: seq<PageContext>, cap: nat, newBrowser: BrowserId, page: PageId): (r: (seq<PageContext>, PageContext))
    ensures r.1.page == page && |r.0| == |cs| + 1 && r.0[|cs|] == r.1
    ensures r.1.browser == newBrowser || r.1.browser in BrowsersOf(cs)
  {
    var b := match SelectBrowser(cs, cap) case Some(x) => x case None => newBrowser;
    var ctx := PageContext(b, page, PageCount(cs, b) + 1 >= cap);
    (SetFlag(cs + [ctx], b, ctx.dispose), ctx)
  }

  /** Which browser Acquire picks, and the page counts and flags it leaves behind. */
  lemma AcquireShape(cs: seq<PageContext>, cap: nat, newBrowser: BrowserId, page: PageId)
    requires newBrowser !in BrowsersOf(cs)
    ensures var (after, ctx) := Acquire(cs, cap, newBrowser, page);
      && ctx.page == page
      && (match FirstEligible(cs, cap, 0)
          case Some(k) => ctx.browser == cs[k].browser && PageCount(cs, ctx.browser) < cap
          case None => ctx.browser == newBrowser && PageCount(cs, newBrowser) == 0)
      && |after| == |cs| + 1 && after[|cs|] == ctx
      && (forall x :: PageCount(after, x) == PageCount(cs, x) + (if x == ctx.browser then 1 else 0))
      && (ctx.dispose <==> PageCount(after, ctx.browser) >= cap)
      && (forall i :: 0 <= i < |after| && after[i].browser == ctx.browser ==> after[i].dispose == ctx.dispose)
      && (forall i :: 0 <= i < |cs| ==> after[i] == cs[i].(dispose := after[i].dispose))
      && (forall i :: 0 <= i < |cs| && cs[i].browser != ctx.browser ==> after[i] == cs[i])
  {
    var (after, ctx) := Acquire(cs, cap, newBrowser, page);
    var ds := cs + [ctx];
    forall x ensures PageCount(after, x) == PageCount(cs, x) + (if x == ctx.browser then 1 else 0) {
      PageCountSameBrowsers(after, ds, x);
      PageCountConcat(cs, [ctx], x);
      assert [ctx][..0] == [];
    }
    if FirstEligible(cs, cap, 0).None? {
      assert forall i :: 0 <= i < |cs| ==> cs[i].browser != newBrowser;
    }
  }

  /**
   * The browser Acquire picks holds at most max(cap, 1) tracked pages
   * afterwards, whatever the list: a reused browser was below the cap, and a
   * launched one had none.
   */
  lemma AcquireWithinCap(cs: seq<PageContext>, cap: nat, newBrowser: BrowserId, page: PageId)
    requires newBrowser !in BrowsersOf(cs)
    ensures var (after, ctx) := Acquire(cs, cap, newBrowser, page);
      PageCount(after, ctx.browser) <= AtLeastOne(cap)
  {
    AcquireShape(cs, cap, newBrowser, page);
  }

  /** The page Acquire opens sits at the end of the list, after every page that was already tracked. */
  lemma AcquiredPageIsLast(cs: seq<PageContext>, cap: nat, newBrowser: BrowserId, page: PageId)
    requires page !in PagesOf(cs)
    ensures var after := Acquire(cs, cap, newBrowser, page).0;
      page in PagesOf(after) && IndexOfPage(after, page) == |cs|
  {
    var after := Acquire(cs, cap, newBrowser, page).0;
    assert after[|cs|].page == page;
    forall i | 0 <= i < |cs|
      ensures after[i].page != page
    {
      assert after[i].page == cs[i].page;
      assert cs[i].page in PagesOf(cs);
    }
  }

  /** The browsers and pages tracked after Acquire: the old ones plus the new page and its browser. */
  lemma AcquireTracks(cs: seq<PageContext>, cap: nat, newBrowser: BrowserId, page: PageId)
    requires newBrowser !in BrowsersOf(cs)
    ensures var (after, ctx) := Acquire(cs, cap, newBrowser, page);
      && BrowsersOf(after) == BrowsersOf(cs) + {ctx.browser}
      && PagesOf(after) == PagesOf(cs) + {page}
  {
    var (after, ctx) := Acquire(cs, cap, newBrowser, page);
    AcquireShape(cs, cap, newBrowser, page);
    forall x | x in BrowsersOf(cs) ensures x in BrowsersOf(after) {
      var i :| 0 <= i < |cs| && cs[i].browser == x;
      assert after[i].browser == x;
    }
    forall x | x in PagesOf(cs) ensures x in PagesOf(after) {
      var i :| 0 <= i < |cs| && cs[i].page == x;
      assert after[i].page == x;
    }
    assert after[|cs|] == ctx;
  }

  /**
   * The loop that copies a new page's flag onto every tracked page of its
   * browser, rewriting the list element by element.
   */
  method SpreadFlag(cs: seq<PageContext>, b: BrowserId, flag: bool) returns (r: seq<PageContext>)
    ensures r == SetFlag(cs, b, flag)
    ensures forall i :: 0 <= i < |r| ==> r[i].browser == cs[i].browser && r[i].page == cs[i].page
    ensures forall i :: 0 <= i < |r| && r[i].browser == b ==> r[i].dispose == flag
  {
    r := cs;
    var i := 0;
    while i < |r|
      invariant 0 <= i <= |r| && |r| == |cs|
      invariant forall j :: 0 <= j < i ==> r[j] == SetFlag(cs, b, flag)[j]
      invariant forall j :: i <= j < |r| ==> r[j] == cs[j]
    {
      if r[i].browser == b {
        r := r[i := r[i].(dispose := flag)];
      }
      i := i + 1;
    }
  }

  /** Acquire keeps the pool invariant when the launched browser and the new page are fresh. */
  lemma AcquirePreservesInv(cs: seq<PageContext>, cap: nat, newBrowser: BrowserId, page: PageId)
    requires PoolInv(cs, cap)
    requires newBrowser !in BrowsersOf(cs) && page !in PagesOf(cs)
    ensures PoolInv(Acquire(cs, cap, newBrowser, page).0, cap)
  {
    AcquireKeepsDistinctPages(cs, cap, newBrowser, page);
    AcquireKeepsUniformFlags(cs, cap, newBrowser, page);
    AcquireKeepsCap(cs, cap, newBrowser, page);
  }

  lemma AcquireKeepsDistinctPages(cs: seq<PageContext>, cap: nat, newBrowser: BrowserId, page: PageId)
    requires DistinctPages(cs) && newBrowser !in BrowsersOf(cs) && page !in PagesOf(cs)
    ensures DistinctPages(Acquire(cs, cap, newBrowser, page).0)
  {
    var after := Acquire(cs, cap, newBrowser, page).0;
    AcquireShape(cs, cap, newBrowser, page);
    forall i, j | 0 <= i < j < |after| ensures after[i].page != after[j].page {
      if j == |cs| {
        assert cs[i].page in PagesOf(cs);
      }
    }
  }

  lemma AcquireKeepsUniformFlags(cs: seq<PageContext>, cap: nat, newBrowser: BrowserId, page: PageId)
    requires UniformFlags(cs) && newBrowser !in BrowsersOf(cs)
    ensures UniformFlags(Acquire(cs, cap, newBrowser, page).0)
  {
    var (after, ctx) := Acquire(cs, cap, newBrowser, page);
    AcquireShape(cs, cap, newBrowser, page);
    forall i, j | 0 <= i < |after| && 0 <= j < |after| && after[i].browser == after[j].browser
      ensures after[i].dispose == after[j].dispose
    {
      if after[i].browser != ctx.browser {
        assert after[i] == cs[i] && after[j] == cs[j];
      }
    }
  }

  lemma AcquireKeepsCap(cs: seq<PageContext>, cap: nat, newBrowser: BrowserId, page: PageId)
    requires WithinCap(cs, cap) && UnflaggedBelowCap(cs, cap) && newBrowser !in BrowsersOf(cs)
    ensures WithinCap(Acquire(cs, cap, newBrowser, page).0, cap)
    ensures UnflaggedBelowCap(Acquire(cs, cap, newBrowser, page).0, cap)
  {
    var (after, ctx) := Acquire(cs, cap, newBrowser, page);
    AcquireShape(cs, cap, newBrowser, page);
    forall i | 0 <= i < |after|
      ensures PageCount(after, after[i].browser) <= AtLeastOne(cap)
      ensures !after[i].dispose ==> PageCount(after, after[i].browser) < cap
    {
      if after[i].browser != ctx.browser {
        assert after[i] == cs[i];
      }
    }
  }

  /** Under the invariant, a tracked page is eligible exactly when it is unflagged. */
  lemma UnflaggedIsEligible(cs: seq<PageContext>, cap: nat, i: nat)
    requires PoolInv(cs, cap) && i < |cs|
    ensures Eligible(cs, cap, i) <==> !cs[i].dispose
  {
  }

  /** A browser whose pages are flagged is never chosen again. */
  lemma FlaggedNeverSelected(cs: seq<PageContext>, cap: nat, i: nat)
    requires UniformFlags(cs) && i < |cs| && cs[i].dispose
    ensures SelectBrowser(cs, cap) != Some(cs[i].browser)
  {
    var k := FirstEligible(cs, cap, 0);
    if k.Some? {
      assert cs[k.value].browser != cs[i].browser by {
        assert !cs[k.value].dispose;
      }
    }
  }

  /**
   * The pool invariant together with how the tracked ids relate to the ids
   * launched, opened and disposed so far: every tracked page and browser was
   * created, and no tracked browser has been disposed.
   */
  ghost predicate Tracked(cs: seq<PageContext>, cap: nat, launched: set<BrowserId>, openedPages: set<PageId>,
                          disposed: set<BrowserId>, closed: set<PageId>)
  {
    && PoolInv(cs, cap)
    && BrowsersOf(cs) <= launched
    && PagesOf(cs) <= openedPages
    && disposed <= launched
    && closed <= openedPages
    && BrowsersOf(cs) !! disposed
  }

  /** Index of the tracked context of page p. */
  function IndexOfPage(cs: seq<PageContext>, p: PageId): (k: nat)
    requires p in PagesOf(cs)
    ensures k < |cs| && cs[k].page == p
    ensures forall j :: 0 <= j < k ==> cs[j].page != p
  {
    if cs[0].page == p then 0
    else
      assert p in PagesOf(cs[1..]) by {
        var i :| 0 <= i < |cs| && cs[i].page == p;
        assert cs[1..][i - 1] == cs[i];
      }
      1 + IndexOfPage(cs[1..], p)
  }

  /** The list without page p's context (the first one equal to it). */
  function RemovePage(cs: seq<PageContext>, p: PageId): (r: seq<PageContext>)
    requires p in PagesOf(cs)
    ensures |r| == |cs| - 1
  {
    var k := IndexOfPage(cs, p);
    cs[..k] + cs[k + 1..]
  }

  /** Removing takes exactly page p's context out of the list, as a multiset. */
  lemma RemovePageTakesOne(cs: seq<PageContext>, p: PageId)
    requires p in PagesOf(cs)
    ensures multiset(RemovePage(cs, p)) + multiset{cs[IndexOfPage(cs, p)]} == multiset(cs)
  {
    var k := IndexOfPage(cs, p);
    assert cs == cs[..k] + [cs[k]] + cs[k + 1..];
  }

  /** Releasing disposes the browser iff the page is flagged and is its browser's last tracked page. */
  predicate ReleaseDisposes(cs: seq<PageContext>, p: PageId)
    requires p in PagesOf(cs)
    ensures ReleaseDisposes(cs, p) ==>
      cs[IndexOfPage(cs, p)].dispose && PageCount(cs, cs[IndexOfPage(cs, p)].browser) == 1
  {
    var ctx := cs[IndexOfPage(cs, p)];
    ctx.dispose && PageCount(cs, ctx.browser) <= 1
  }

  /** The library calls a release makes: close the page unless it is closed, then maybe dispose its browser. */
  function ReleaseEvents(cs: seq<PageContext>, p: PageId, closed: set<PageId>): (e: seq<Event>)
    requires p in PagesOf(cs)
    ensures |e| <= 2
    ensures Closed(p) in e <==> p !in closed
    ensures Disposed(cs[IndexOfPage(cs, p)].browser) in e <==> ReleaseDisposes(cs, p)
  {
    (if p in closed then [] else [Closed(p)])
    + (if ReleaseDisposes(cs, p) then [Disposed(cs[IndexOfPage(cs, p)].browser)] else [])
  }

  /** What removing page p does to the list: one page fewer for its browser, and nothing new. */
  lemma RemovePageShape(cs: seq<PageContext>, p: PageId)
    requires p in PagesOf(cs)
    ensures var k := IndexOfPage(cs, p); var r := RemovePage(cs, p);
      && (forall x :: PageCount(r, x) == PageCount(cs, x) - (if x == cs[k].browser then 1 else 0))
      && (forall i :: 0 <= i < |r| ==> r[i] == (if i < k then cs[i] else cs[i + 1]))
  {
    var k := IndexOfPage(cs, p);
    var r := RemovePage(cs, p);
    assert cs == cs[..k] + [cs[k]] + cs[k + 1..];
    forall x ensures PageCount(r, x) == PageCount(cs, x) - (if x == cs[k].browser then 1 else 0) {
      PageCountConcat(cs[..k], cs[k + 1..], x);
      PageCountConcat(cs[..k] + [cs[k]], cs[k + 1..], x);
      PageCountConcat(cs[..k], [cs[k]], x);
      assert [cs[k]][..0] == [];
    }
  }

  /** Releasing a tracked page keeps the pool invariant. */
  lemma ReleasePreservesInv(cs: seq<PageContext>, cap: nat, p: PageId)
    requires PoolInv(cs, cap) && p in PagesOf(cs)
    ensures PoolInv(RemovePage(cs, p), cap)
  {
    ReleaseKeepsOrderFacts(cs, p);
    ReleaseKeepsCap(cs, cap, p);
  }

  lemma ReleaseKeepsOrderFacts(cs: seq<PageContext>, p: PageId)
    requires DistinctPages(cs) && UniformFlags(cs) && p in PagesOf(cs)
    ensures DistinctPages(RemovePage(cs, p)) && UniformFlags(RemovePage(cs, p))
  {
    var k := IndexOfPage(cs, p);
    var r := RemovePage(cs, p);
    assert forall i :: 0 <= i < |r| ==> r[i] == cs[if i < k then i else i + 1];
  }

  lemma ReleaseKeepsCap(cs: seq<PageContext>, cap: nat, p: PageId)
    requires WithinCap(cs, cap) && UnflaggedBelowCap(cs, cap) && p in PagesOf(cs)
    ensures WithinCap(RemovePage(cs, p), cap) && UnflaggedBelowCap(RemovePage(cs, p), cap)
  {
    var k := IndexOfPage(cs, p);
    var r := RemovePage(cs, p);
    RemovePageShape(cs, p);
    forall i | 0 <= i < |r|
      ensures PageCount(r, r[i].browser) <= AtLeastOne(cap)
      ensures !r[i].dispose ==> PageCount(r, r[i].browser) < cap
    {
      var j := if i < k then i else i + 1;
      assert r[i] == cs[j];
    }
  }

  /** Releasing page p untracks exactly p. */
  lemma ReleaseUntracksPage(cs: seq<PageContext>, p: PageId)
    requires DistinctPages(cs) && p in PagesOf(cs)
    ensures PagesOf(RemovePage(cs, p)) == PagesOf(cs) - {p}
    ensures BrowsersOf(RemovePage(cs, p)) <= BrowsersOf(cs)
  {
    var k := IndexOfPage(cs, p);
    var r := RemovePage(cs, p);
    RemovePageShape(cs, p);
    assert forall i :: 0 <= i < |r| ==> r[i] == cs[if i < k then i else i + 1];
    forall q ensures q in PagesOf(r) <==> q in PagesOf(cs) - {p} {
      if q in PagesOf(cs) - {p} {
        var i :| 0 <= i < |cs| && cs[i].page == q;
        assert i != k;
        assert r[if i < k then i else i - 1] == cs[i];
      }
    }
  }

  /** A browser is disposed by a release only when that release leaves it with no tracked page. */
  lemma ReleaseDisposesOnlyDrained(cs: seq<PageContext>, p: PageId)
    requires p in PagesOf(cs) && ReleaseDisposes(cs, p)
    ensures cs[IndexOfPage(cs, p)].browser !in BrowsersOf(RemovePage(cs, p))
  {
    var b := cs[IndexOfPage(cs, p)].browser;
    RemovePageShape(cs, p);
    assert PageCount(RemovePage(cs, p), b) == 0;
  }

  /**
   * A browser whose last page is released while unflagged is not disposed,
   * and drops out of tracking: no later selection can reach it.
   */
  lemma UnflaggedLastPageLeaks(cs: seq<PageContext>, p: PageId)
    requires p in PagesOf(cs)
    requires !cs[IndexOfPage(cs, p)].dispose && PageCount(cs, cs[IndexOfPage(cs, p)].browser) == 1
    ensures !ReleaseDisposes(cs, p)
    ensures cs[IndexOfPage(cs, p)].browser !in BrowsersOf(RemovePage(cs, p))
  {
    var b := cs[IndexOfPage(cs, p)].browser;
    RemovePageShape(cs, p);
    assert PageCount(RemovePage(cs, p), b) == 0;
  }

  /** Acquiring with a fresh browser and page keeps the tracking invariant. */
  lemma AcquireKeepsTracked(cs: seq<PageContext>, cap: nat, launched: set<BrowserId>, openedPages: set<PageId>,
                            disposed: set<BrowserId>, closed: set<PageId>, newBrowser: BrowserId, page: PageId)
    requires Tracked(cs, cap, launched, openedPages, disposed, closed)
    requires newBrowser !in launched && page !in openedPages
    ensures Tracked(Acquire(cs, cap, newBrowser, page).0, cap,
                    if SelectBrowser(cs, cap).None? then launched + {newBrowser} else launched,
                    openedPages + {page}, disposed, closed)
  {
    var (after, ctx) := Acquire(cs, cap, newBrowser, page);
    AcquirePreservesInv(cs, cap, newBrowser, page);
    AcquireTracks(cs, cap, newBrowser, page);
    AcquireShape(cs, cap, newBrowser, page);
    assert SelectBrowser(cs, cap).None? ==> ctx.browser == newBrowser;
    assert SelectBrowser(cs, cap).Some? ==> ctx.browser in launched;
  }

  /**
   * Releasing a tracked page keeps the tracking invariant, with the page now
   * closed and its browser disposed exactly when the release disposes it; a
   * browser is never disposed twice.
   */
  lemma ReleaseKeepsTracked(cs: seq<PageContext>, cap: nat, launched: set<BrowserId>, openedPages: set<PageId>,
                            disposed: set<BrowserId>, closed: set<PageId>, p: PageId)
    requires Tracked(cs, cap, launched, openedPages, disposed, closed) && p in PagesOf(cs)
    ensures var b := cs[IndexOfPage(cs, p)].browser;
      && (ReleaseDisposes(cs, p) ==> b !in disposed)
      && Tracked(RemovePage(cs, p), cap, launched, openedPages,
                 if ReleaseDisposes(cs, p) then disposed + {b} else disposed, closed + {p})
  {
    var b := cs[IndexOfPage(cs, p)].browser;
    assert b in BrowsersOf(cs);
    ReleasePreservesInv(cs, cap, p);
    ReleaseUntracksPage(cs, p);
    if ReleaseDisposes(cs, p) {
      ReleaseDisposesOnlyDrained(cs, p);
    }
  }

  /** Tracked browsers in the order of their first tracked page (the grouping order of shutdown). */
  function DistinctBrowsers(cs: seq<PageContext>): (bs: seq<BrowserId>)
    ensures forall i, j :: 0 <= i < j < |bs| ==> bs[i] != bs[j]
    ensures forall x :: x in bs <==> x in BrowsersOf(cs)
  {
    if cs == [] then []
    else
      var n := |cs| - 1;
      var d := DistinctBrowsers(cs[..n]);
      assert BrowsersOf(cs) == BrowsersOf(cs[..n]) + {cs[n].browser} by {
        assert forall i :: 0 <= i < n ==> cs[..n][i] == cs[i];
      }
      if cs[n].browser in d then d else d + [cs[n].browser]
  }

  /** Index of the first tracked context of browser b. */
  function FirstOfBrowser(cs: seq<PageContext>, b: BrowserId): (k: nat)
    requires b in BrowsersOf(cs)
    ensures k < |cs| && cs[k].browser == b
    ensures forall j :: 0 <= j < k ==> cs[j].browser != b
  {
    if cs[0].browser == b then 0
    else
      assert b in BrowsersOf(cs[1..]) by {
        var i :| 0 <= i < |cs| && cs[i].browser == b;
        assert cs[1..][i - 1] == cs[i];
      }
      1 + FirstOfBrowser(cs[1..], b)
  }

  /** Appending contexts does not move the first context of a browser already tracked. */
  lemma FirstOfBrowserPrefix(cs: seq<PageContext>, n: nat, b: BrowserId)
    requires n <= |cs| && b in BrowsersOf(cs[..n])
    ensures b in BrowsersOf(cs) && FirstOfBrowser(cs, b) == FirstOfBrowser(cs[..n], b)
  {
    var k := FirstOfBrowser(cs[..n], b);
    assert cs[k] == cs[..n][k];
    assert b in BrowsersOf(cs);
  }

  /** DistinctBrowsers lists each browser at the position of its first tracked page:
      a browser listed earlier had its first page acquired earlier. */
  lemma {:induction false} DistinctBrowsersInFirstOrder(cs: seq<PageContext>)
    ensures forall i, j :: 0 <= i < j < |DistinctBrowsers(cs)| ==>
      FirstOfBrowser(cs, DistinctBrowsers(cs)[i]) < FirstOfBrowser(cs, DistinctBrowsers(cs)[j])
  {
    if cs != [] {
      var n := |cs| - 1;
      var pre := cs[..n];
      var d := DistinctBrowsers(pre);
      DistinctBrowsersInFirstOrder(pre);
      var bs := DistinctBrowsers(cs);
      forall i, j | 0 <= i < j < |bs|
        ensures FirstOfBrowser(cs, bs[i]) < FirstOfBrowser(cs, bs[j])
      {
        assert bs[i] == d[i];
        FirstOfBrowserPrefix(cs, n, d[i]);
        if j < |d| {
          assert bs[j] == d[j];
          FirstOfBrowserPrefix(cs, n, d[j]);
          assert FirstOfBrowser(pre, d[i]) < FirstOfBrowser(pre, d[j]);
        } else {
          assert bs[j] == cs[n].browser && bs[j] !in BrowsersOf(pre);
          assert FirstOfBrowser(cs, bs[j]) == n by {
            forall k | 0 <= k < n ensures cs[k].browser != bs[j] {
              assert cs[k] == pre[k];
            }
          }
          assert FirstOfBrowser(pre, d[i]) < n;
        }
      }
    }
  }

  /** Close events for the pages of browser b that are not yet closed, in list order. */
  function GroupCloses(cs: seq<PageContext>, b: BrowserId, closed: set<PageId>): (g: seq<Event>)
    ensures forall j :: 0 <= j < |g| ==> g[j].Closed? && g[j].page !in closed
  {
    if cs == [] then []
    else
      var n := |cs| - 1;
      GroupCloses(cs[..n], b, closed)
      + (if cs[n].browser == b && cs[n].page !in closed then [Closed(cs[n].page)] else [])
  }

  /**
   * A group closes at most one page per tracked page of its browser, and
   * exactly one per tracked page when none of them is closed yet.
   */
  lemma {:induction false} GroupClosesCount(cs: seq<PageContext>, b: BrowserId, closed: set<PageId>)
    ensures |GroupCloses(cs, b, closed)| <= PageCount(cs, b)
    ensures (forall i :: 0 <= i < |cs| && cs[i].browser == b ==> cs[i].page !in closed) ==>
      |GroupCloses(cs, b, closed)| == PageCount(cs, b)
  {
    if cs != [] {
      GroupClosesCount(cs[..|cs| - 1], b, closed);
    }
  }

  /** Pages of the tracked contexts whose browser is in bs. */
  function PagesIn(cs: seq<PageContext>, bs: set<BrowserId>): set<PageId>
  {
    if cs == [] then {}
    else
      var n := |cs| - 1;
      PagesIn(cs[..n], bs) + (if cs[n].browser in bs then {cs[n].page} else {})
  }

  /** A page is among the pages of bs iff some tracked context of a browser in bs holds it. */
  lemma {:induction false} PagesInMember(cs: seq<PageContext>, bs: set<BrowserId>, q: PageId)
    ensures q in PagesIn(cs, bs) <==> exists j :: 0 <= j < |cs| && cs[j].page == q && cs[j].browser in bs
  {
    if cs != [] {
      var n := |cs| - 1;
      PagesInMember(cs[..n], bs, q);
      if exists j :: 0 <= j < |cs| && cs[j].page == q && cs[j].browser in bs {
        var j :| 0 <= j < |cs| && cs[j].page == q && cs[j].browser in bs;
        if j < n {
          assert cs[..n][j] == cs[j];
        }
      }
    }
  }

  /** A page of a browser outside bs is not among the pages of bs (pages are distinct). */
  lemma PagesInOtherBrowser(cs: seq<PageContext>, bs: set<BrowserId>, i: nat)
    requires DistinctPages(cs) && i < |cs| && cs[i].browser !in bs
    ensures cs[i].page !in PagesIn(cs, bs)
  {
    PagesInMember(cs, bs, cs[i].page);
  }

  /** A tracked page does not occur earlier in the list. */
  lemma PageNotInPrefix(cs: seq<PageContext>, bs: set<BrowserId>, i: nat)
    requires DistinctPages(cs) && i < |cs|
    ensures cs[i].page !in PagesIn(cs[..i], bs)
  {
    PagesInMember(cs[..i], bs, cs[i].page);
  }

  lemma PagesInGrow(cs: seq<PageContext>, bs: set<BrowserId>, i: nat)
    requires i < |cs|
    ensures PagesIn(cs[..i + 1], bs) == PagesIn(cs[..i], bs) + (if cs[i].browser in bs then {cs[i].page} else {})
  {
    assert cs[..i + 1][..i] == cs[..i];
  }

  lemma {:induction false} PagesInNone(cs: seq<PageContext>)
    ensures PagesIn(cs, {}) == {}
  {
    if cs != [] {
      PagesInNone(cs[..|cs| - 1]);
    }
  }

  lemma {:induction false} PagesInUnion(cs: seq<PageContext>, bs: set<BrowserId>, b: BrowserId)
    ensures PagesIn(cs, bs + {b}) == PagesIn(cs, bs) + PagesIn(cs, {b})
  {
    if cs != [] {
      PagesInUnion(cs[..|cs| - 1], bs, b);
    }
  }

  lemma PagesInAll(cs: seq<PageContext>, bs: set<BrowserId>)
    requires BrowsersOf(cs) <= bs
    ensures PagesIn(cs, bs) == PagesOf(cs)
  {
    forall q ensures q in PagesIn(cs, bs) <==> q in PagesOf(cs) {
      PagesInMember(cs, bs, q);
      if q in PagesOf(cs) {
        var i :| 0 <= i < |cs| && cs[i].page == q;
        assert cs[i].browser in BrowsersOf(cs);
      }
    }
  }

  /** Group b's close events depend only on which of b's pages count as closed. */
  lemma {:induction false} GroupClosesAgree(cs: seq<PageContext>, b: BrowserId, c1: set<PageId>, c2: set<PageId>)
    requires forall i :: 0 <= i < |cs| && cs[i].browser == b ==> (cs[i].page in c1 <==> cs[i].page in c2)
    ensures GroupCloses(cs, b, c1) == GroupCloses(cs, b, c2)
  {
    if cs != [] {
      var n := |cs| - 1;
      GroupClosesAgree(cs[..n], b, c1, c2);
    }
  }

  /** Shutdown of the browsers `bs` in order: close the group's open pages, then dispose the browser. */
  function Teardown(cs: seq<PageContext>, bs: seq<BrowserId>, closed: set<PageId>): (t: seq<Event>)
    ensures bs == [] ==> t == []
    ensures bs != [] ==> t != [] && t[|t| - 1] == Disposed(bs[|bs| - 1])
  {
    if bs == [] then []
    else
      var n := |bs| - 1;
      Teardown(cs, bs[..n], closed) + GroupCloses(cs, bs[n], closed) + [Disposed(bs[n])]
  }

  /** Closing the pages of other browsers does not change the close events of group b. */
  lemma GroupClosesAfterOthers(cs: seq<PageContext>, done: set<BrowserId>, b: BrowserId, closed: set<PageId>)
    requires DistinctPages(cs) && b !in done
    ensures GroupCloses(cs, b, closed + PagesIn(cs, done)) == GroupCloses(cs, b, closed)
    ensures PagesIn(cs, done + {b}) == PagesIn(cs, done) + PagesIn(cs, {b})
  {
    forall i | 0 <= i < |cs| && cs[i].browser == b
      ensures cs[i].page in closed + PagesIn(cs, done) <==> cs[i].page in closed
    {
      PagesInOtherBrowser(cs, done, i);
    }
    GroupClosesAgree(cs, b, closed + PagesIn(cs, done), closed);
    PagesInUnion(cs, done, b);
  }

  /** One more group of the shutdown: its page closes, then its disposal. */
  lemma TeardownStep(cs: seq<PageContext>, bs: seq<BrowserId>, i: nat, closed: set<PageId>)
    requires i < |bs|
    ensures Teardown(cs, bs[..i + 1], closed)
      == Teardown(cs, bs[..i], closed) + GroupCloses(cs, bs[i], closed) + [Disposed(bs[i])]
  {
    assert bs[..i + 1][..i] == bs[..i];
  }

  /** The browsers a sequence of events disposes, in order. */
  function Disposals(events: seq<Event>): seq<BrowserId>
  {
    if events == [] then []
    else
      var n := |events| - 1;
      Disposals(events[..n]) + (if events[n].Disposed? then [events[n].browser] else [])
  }

  lemma {:induction false} DisposalsConcat(xs: seq<Event>, ys: seq<Event>)
    ensures Disposals(xs + ys) == Disposals(xs) + Disposals(ys)
  {
    if ys != [] {
      var n := |ys| - 1;
      assert (xs + ys)[..|xs + ys| - 1] == xs + ys[..n];
      DisposalsConcat(xs, ys[..n]);
    } else {
      assert xs + ys == xs;
    }
  }

  lemma {:induction false} GroupClosesOnlyClose(cs: seq<PageContext>, b: BrowserId, closed: set<PageId>)
    ensures Disposals(GroupCloses(cs, b, closed)) == []
    ensures forall j :: 0 <= j < |GroupCloses(cs, b, closed)| ==> GroupCloses(cs, b, closed)[j].Closed?
  {
    if cs != [] {
      var n := |cs| - 1;
      GroupClosesOnlyClose(cs[..n], b, closed);
      var tail := if cs[n].browser == b && cs[n].page !in closed then [Closed(cs[n].page)] else [];
      DisposalsConcat(GroupCloses(cs[..n], b, closed), tail);
    }
  }

  /** Every open page of browser b gets a close event in b's group. */
  lemma {:induction false} GroupClosesCovers(cs: seq<PageContext>, b: BrowserId, closed: set<PageId>, i: nat)
    requires i < |cs| && cs[i].browser == b && cs[i].page !in closed
    ensures Closed(cs[i].page) in GroupCloses(cs, b, closed)
  {
    var n := |cs| - 1;
    if i < n {
      GroupClosesCovers(cs[..n], b, closed, i);
    }
  }

  /** Shutdown disposes exactly the browsers it is given, each once, in that order. */
  lemma {:induction false} TeardownDisposesInOrder(cs: seq<PageContext>, bs: seq<BrowserId>, closed: set<PageId>)
    ensures Disposals(Teardown(cs, bs, closed)) == bs
  {
    if bs != [] {
      var n := |bs| - 1;
      TeardownDisposesInOrder(cs, bs[..n], closed);
      GroupClosesOnlyClose(cs, bs[n], closed);
      DisposalsConcat(Teardown(cs, bs[..n], closed), GroupCloses(cs, bs[n], closed));
      DisposalsConcat(Teardown(cs, bs[..n], closed) + GroupCloses(cs, bs[n], closed), [Disposed(bs[n])]);
      assert bs == bs[..n] + [bs[n]];
    }
  }

  /** What a prefix of a sequence holds, a longer prefix holds too. */
  lemma PrefixKeeps(s: seq<Event>, l: nat, m: nat, x: Event)
    requires l <= m <= |s| && x in s[..l]
    ensures x in s[..m]
  {
    var j :| 0 <= j < l && s[..l][j] == x;
    assert s[..m][j] == x;
  }

  /**
   * In a group step of shutdown (earlier events, then closes only, then one
   * disposal), a disposal that is not among the earlier events is the last
   * event.
   */
  lemma DisposedAfterGroup(before: seq<Event>, group: seq<Event>, d: BrowserId, x: BrowserId, m: nat)
    requires forall j :: 0 <= j < |group| ==> group[j].Closed?
    requires m <= |before| + |group| + 1
    requires Disposed(x) in (before + group + [Disposed(d)])[..m] && Disposed(x) !in before
    ensures x == d && m == |before| + |group| + 1
  {
    var t := before + group + [Disposed(d)];
    var k :| 0 <= k < m && t[..m][k] == Disposed(x);
    if |before| <= k < |before| + |group| {
      assert group[k - |before|] == Disposed(x);
    }
  }

  /**
   * In the shutdown sequence, by the time a browser is disposed every open
   * tracked page of it has been closed: each prefix that holds Disposed(b)
   * holds Closed(p) for every such page p.
   */
  lemma {:induction false} TeardownClosesBeforeDispose(
    cs: seq<PageContext>, bs: seq<BrowserId>, closed: set<PageId>, i: nat, m: nat)
    requires i < |cs| && cs[i].page !in closed
    requires m <= |Teardown(cs, bs, closed)|
    requires Disposed(cs[i].browser) in Teardown(cs, bs, closed)[..m]
    ensures Closed(cs[i].page) in Teardown(cs, bs, closed)[..m]
  {
    var t := Teardown(cs, bs, closed);
    var n := |bs| - 1;
    var before := Teardown(cs, bs[..n], closed);
    var group := GroupCloses(cs, bs[n], closed);
    assert t == before + group + [Disposed(bs[n])];
    if m <= |before| {
      assert t[..m] == before[..m];
      TeardownClosesBeforeDispose(cs, bs[..n], closed, i, m);
    } else if Disposed(cs[i].browser) in before {
      assert before[..|before|] == before == t[..|before|];
      TeardownClosesBeforeDispose(cs, bs[..n], closed, i, |before|);
      PrefixKeeps(t, |before|, m, Closed(cs[i].page));
    } else {
      GroupClosesOnlyClose(cs, bs[n], closed);
      DisposedAfterGroup(before, group, bs[n], cs[i].browser, m);
      GroupClosesCovers(cs, bs[n], closed, i);
      assert t[..m] == t;
    }
  }
}
