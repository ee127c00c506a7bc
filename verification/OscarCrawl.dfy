/** The Oscar crawl: a browser driven over a page that keeps changing, one year after the other. */
module OscarCrawl {
  import opened Domain
  import opened Html
  import opened OscarPage
  import opened Sequences

  /** How a driver command ends: normally, with `NoSuchElementException`, with another `WebDriverException`. */
  datatype Answer = Works | NoSuchElement | DriverError

  /** The page and the driver commands used on it; the page may move on before any of them. */
  class Browser {
    const site: Site
    const links: nat -> seq<string>
    const evolve: (nat, Page) -> Page
    const answer: nat -> Answer
    var page: Page
    var commands: nat
    var renders: nat
    var closed: bool

    constructor (site: Site, links: nat -> seq<string>, evolve: (nat, Page) -> Page, answer: nat -> Answer)
      ensures Valid() && Settled() && !closed && page == Standing(None)
      ensures this.site == site && this.links == links && this.evolve == evolve && this.answer == answer
    {
      this.site := site;
      this.links := links;
      this.evolve := evolve;
      this.answer := answer;
      page, commands, renders, closed := Standing(None), 0, 0, false;
    }

    predicate Valid()
      reads this
    {
      match page
      case Standing(table) => table.Some? ==> table.value.render < renders
      case Clicked(shown, _, render) => render < renders && Renews(shown, render)
      case Loading(_, render) => render < renders
      case Filling(year, render, count) => render < renders && count <= |site(year)|
    }

    /** No click is waiting for its table. */
    predicate Settled()
      reads this
    {
      page.Standing? || (page.Filling? && page.count >= 1)
    }

    /** No row is ever seen under the spinner. */
    ghost predicate RendersAtOnce() {
      forall n: nat, p: Page :: !evolve(n, p).Filling?
    }

    /** What the page has become by the answer to command `n`. */
    function Moved(n: nat, p: Page): Page {
      var next := evolve(n, p);
      if Later(site, p, next) then next else p
    }

    /** What it has become after the commands from number `first` up to `last`. */
    function After(first: nat, p: Page, last: nat): Page {
      if last <= first then p else Moved(last - 1, After(first, p, last - 1))
    }

    lemma {:induction false} AfterSplit(first: nat, p: Page, middle: nat, last: nat)
      requires first <= middle <= last
      ensures After(first, p, last) == After(middle, After(first, p, middle), last)
    {
      if middle < last {
        AfterSplit(first, p, middle, last - 1);
      }
    }

    ghost predicate AllWork() {
      forall n: nat :: answer(n) == Works
    }

    /** Every command works, and a clicked year's table stands after `delay` of them at the latest. */
    ghost predicate Timely(delay: nat) {
      && AllWork()
      && (forall n: nat, p: Page, last: nat | p.Clicked? && n + delay <= last ::
            After(n, p, last) == Finished(site, p.year, p.render))
    }

    lemma TimelyTakesCommands(delay: nat)
      ensures Timely(delay) ==> delay >= 1 && AllWork()
    {
      var p := Clicked(None, "", 0);
      assert Timely(delay) && delay == 0 ==> After(0, p, 0) == Finished(site, p.year, p.render);
    }

    /** The year links appear together, at the latest by the last of `patience` polls, and stay. */
    ghost predicate LinksAppear(all: seq<string>, first: nat, patience: nat) {
      && all != [] && links(first + 1 + patience) != []
      && (forall n: nat | links(n) != [] :: links(n) == all && links(n + 1) == all)
    }

    lemma LinksStay(all: seq<string>, first: nat, patience: nat, n: nat)
      requires LinksAppear(all, first, patience) && links(n) != []
      ensures links(n + 1) == all
    {
    }

    /** No part of a table can be taken for the whole: rows come all at once, or by the next command. */
    ghost predicate NeverPartial() {
      RendersAtOnce() || Timely(1)
    }

    /** There was a command since the `first` one, and the last of them did not work. */
    predicate LastFailed(first: nat)
      reads this
    {
      first < commands && answer(commands - 1) != Works
    }

    /** The driver failed on no command since the `first` one; an element may have been missing. */
    ghost predicate NoDriverError(first: nat)
      reads this
    {
      forall n: nat | first <= n < commands :: answer(n) != DriverError
    }

    /** Any command: the page moves on, then the driver answers. */
    method Command() returns (result: Answer)
      requires Valid()
      modifies this`page, this`commands
      ensures Valid() && Later(site, old(page), page) && page == Moved(old(commands), old(page))
      ensures old(Settled()) ==> Settled() && FirstRow(site, page) == FirstRow(site, old(page))
      ensures RendersAtOnce() && !old(page).Filling? ==> !page.Filling?
      ensures result == answer(old(commands)) && commands == old(commands) + 1
    {
      page := Moved(commands, page);
      result := answer(commands);
      commands := commands + 1;
    }

    /** The commands since `first` followed the page from `p` on, and all but the last of them worked. */
    ghost predicate Ran(first: nat, p: Page)
      reads this
    {
      && first <= commands && page == After(first, p, commands)
      && forall n: nat | first <= n < commands - 1 :: answer(n) == Works
    }

    /** One more command of a poll that began at `first`, with the page at `p`. */
    method Look(ghost first: nat, ghost p: Page) returns (result: Answer)
      requires Valid() && Ran(first, p) && (first < commands ==> answer(commands - 1) == Works)
      modifies this`page, this`commands
      ensures Valid() && Ran(first, p) && Later(site, old(page), page) && page == Moved(old(commands), old(page))
      ensures RendersAtOnce() && !old(page).Filling? ==> !page.Filling?
      ensures result == answer(old(commands)) && commands == old(commands) + 1
    {
      result := Command();
    }

    /** `find_element(By.ID, year).click()`. */
    method Click(year: string) returns (result: Answer)
      requires Valid() && Settled()
      modifies this`page, this`commands, this`renders
      ensures Valid() && result == answer(old(commands)) && commands == old(commands) + 1
      ensures result == Works ==>
                && page.Clicked? && page.year == year && page.render == old(renders)
                && Previous(page.shown) == FirstRow(site, old(page))
    {
      result := Command();
      if result == Works {
        page := Clicked(Screen(site, page), year, renders);
        renders := renders + 1;
      }
    }
  }

  datatype Reason = TimedOut | DriverRaised | MalformedFilm | BadYear

  datatype Films = Collected(films: seq<OscarRow>) | Fails(reason: Reason)

  /** What the processor sees of a crawl: its films as the result's only section, or an exception. */
  function AsOutcome(films: Films): (outcome: CrawlOutcome)
    ensures outcome.Crawled? <==> films.Collected?
    ensures outcome.Crawled? ==> FillsOwnSection(Oscar, outcome.result) && outcome.result.oscar == films.films
  {
    match films
    case Collected(rows) => Crawled(CrawlResult([], rows))
    case Fails(_) => Raised("oscar crawl failed")
  }

  datatype Poll = Ready | NotYet | Raises

  /** A missing element counts as not ready; any other driver error ends the wait. */
  function PollOf(result: Answer): Poll {
    match result
    case Works => Ready
    case NoSuchElement => NotYet
    case DriverError => Raises
  }

  /** The last two signals: no spinner, and then a row. */
  method CheckRows(browser: Browser, ghost first: nat, ghost before: Page)
    returns (poll: Poll, ghost p2: Page, ghost p3: Page)
    requires browser.Valid() && browser.Ran(first, before)
    requires first < browser.commands ==> browser.answer(browser.commands - 1) == Works
    modifies browser`page, browser`commands
    ensures browser.Valid() && browser.Ran(first, before) && old(browser.commands) < browser.commands
    ensures p3 == browser.page && p2 == browser.Moved(old(browser.commands), old(browser.page))
    ensures Later(browser.site, old(browser.page), p2) && Later(browser.site, p2, p3)
    ensures browser.RendersAtOnce() && !old(browser.page).Filling? ==> !p3.Filling?
    ensures var last, ready := browser.answer(browser.commands - 1), !SpinnerShown(p2) && |Rows(browser.site, p3)| > 0;
            && (poll == Raises <==> last == DriverError) && (poll == Ready ==> last == Works && ready)
            && (poll == NotYet ==> !ready || last == NoSuchElement)
  {
    var result := browser.Look(first, before);
    p2, p3 := browser.page, browser.page;
    if result != Works || SpinnerShown(browser.page) {
      return if result == Works then NotYet else PollOf(result), p2, p2;
    }
    result := browser.Look(first, before);
    p3 := browser.page;
    poll := if result != Works then PollOf(result)
            else if Rows(browser.site, browser.page) != [] then Ready else NotYet;
  }

  /** `_table_ready`, with the states of the page its three reads saw. */
  method CheckTable(browser: Browser, previous: Option<nat>)
    returns (poll: Poll, ghost p1: Page, ghost p2: Page, ghost p3: Page)
    requires browser.Valid()
    modifies browser`page, browser`commands
    ensures browser.Valid() && p3 == browser.page
    ensures Later(browser.site, old(browser.page), p1) && Later(browser.site, p1, p2) && Later(browser.site, p2, p3)
    ensures browser.RendersAtOnce() && !old(browser.page).Filling? ==> !p3.Filling?
    ensures old(browser.commands) < browser.commands && browser.Ran(old(browser.commands), old(browser.page))
    ensures poll == Ready ==> TableReady(browser.site, previous, p1, p2, p3)
    ensures var last := browser.answer(browser.commands - 1);
            && (poll == NotYet ==> !TableReady(browser.site, previous, p1, p2, p3) || last == NoSuchElement)
            && (poll == Raises <==> last == DriverError) && (poll == Ready ==> last == Works)
    ensures browser.Moved(old(browser.commands), old(browser.page)) == if previous.Some? then p1 else p2
  {
    var result;
    ghost var first, before := browser.commands, browser.page;
    p1 := browser.page;
    if previous.Some? {
      result := browser.Look(first, before);
      p1 := browser.page;
      if result != Works || !IsStale(browser.site, browser.page, previous.value) {
        return if result == Works then NotYet else PollOf(result), p1, p1, p1;
      }
    }
    poll, p2, p3 := CheckRows(browser, first, before);
  }

  /** What waiting for a year's table establishes about the rows then on screen. */
  predicate TableOf(site: Site, year: string, table: seq<RawFilm>, whole: bool) {
    && table != [] && table <= site(year)
    && (whole ==> table == site(year))
  }

  /** What three reads that say ready show of the page. */
  lemma ReadyPage(site: Site, clicked: Page, p1: Page, p2: Page, p3: Page)
    requires clicked.Clicked? && Renews(clicked.shown, clicked.render)
    requires Reads(site, clicked.shown, clicked.year, clicked.render, p1, p2, p3)
    requires TableReady(site, Previous(clicked.shown), p1, p2, p3)
    ensures p3.Standing? || (p3.Filling? && p3.count >= 1)
    ensures FirstRow(site, p3).Some? && Screen(site, p3).value.year == clicked.year
    ensures TableOf(site, clicked.year, Rows(site, p3), Previous(clicked.shown).Some? || !p3.Filling?)
    ensures Previous(clicked.shown).Some? || !p3.Filling? ==> p3 == Finished(site, clicked.year, clicked.render)
  {
    ReadyMeansClickedYear(site, clicked.shown, clicked.year, clicked.render, p1, p2, p3, p3);
    ReadyAfterRow(site, clicked.shown, clicked.year, clicked.render, p1, p2, p3);
  }

  /** Once the table stands the next poll finds it ready. */
  lemma ReadyInTime(browser: Browser, clicked: Page, first: nat, before: nat, patience: nat,
          p1: Page, p2: Page, p3: Page)
    requires clicked.Clicked? && Renews(clicked.shown, clicked.render) && browser.site(clicked.year) != []
    requires browser.Timely(patience) && first <= before && first + patience <= before + 1
    requires browser.Moved(before, browser.After(first, clicked, before)) ==
             if Previous(clicked.shown).Some? then p1 else p2
    requires Later(browser.site, p1, p2) && Later(browser.site, p2, p3)
    ensures TableReady(browser.site, Previous(clicked.shown), p1, p2, p3)
  {
    assert browser.After(first, clicked, before + 1) == Finished(browser.site, clicked.year, clicked.render);
  }

  /** `wait.until`: polls until the table is ready, at most `patience` times. */
  method WaitForTable(browser: Browser, previous: Option<nat>, patience: nat) returns (poll: Poll)
    requires browser.Valid() && browser.page.Clicked? && Previous(browser.page.shown) == previous
    modifies browser`page, browser`commands
    ensures browser.Valid()
    ensures poll == Ready ==>
              && browser.Settled() && FirstRow(browser.site, browser.page).Some?
              && Screen(browser.site, browser.page).value.year == old(browser.page.year)
              && TableOf(browser.site, old(browser.page.year), Rows(browser.site, browser.page),
                         previous.Some? || browser.RendersAtOnce())
    ensures old(browser.commands) <= browser.commands
    ensures poll == Raises ==> browser.LastFailed(old(browser.commands))
    ensures poll == Raises ==> browser.answer(browser.commands - 1) == DriverError
    ensures poll == Raises || browser.NoDriverError(old(browser.commands))
    ensures poll == NotYet ==> old(browser.commands) + patience <= browser.commands
    ensures browser.Timely(patience) && browser.site(old(browser.page.year)) != [] ==>
              && poll == Ready
              && (previous.Some? || browser.NeverPartial() ==>
                    browser.page == Finished(browser.site, old(browser.page.year), old(browser.page.render)))
  {
    ghost var clicked, first := browser.page, browser.commands;
    var site := browser.site;
    for i := 0 to patience
      invariant browser.Valid() && Later(site, clicked, browser.page)
      invariant browser.RendersAtOnce() ==> !browser.page.Filling?
      invariant first + i <= browser.commands && browser.NoDriverError(first)
      invariant browser.Timely(patience) && patience <= i ==> site(clicked.year) == []
      invariant browser.page == browser.After(first, clicked, browser.commands)
    {
      ghost var p0, p1, p2, p3 := browser.page, browser.page, browser.page, browser.page;
      ghost var before := browser.commands;
      poll, p1, p2, p3 := CheckTable(browser, previous);
      browser.AfterSplit(first, clicked, before, browser.commands);
      LaterIsTransitive(site, clicked, p0, p1);
      LaterIsTransitive(site, clicked, p1, p2);
      LaterIsTransitive(site, clicked, p2, p3);
      if poll == Ready {
        ReadyPage(site, clicked, p1, p2, p3);
      } else if browser.Timely(patience) && first + patience <= before + 1 && site(clicked.year) != [] {
        ReadyInTime(browser, clicked, first, before, patience, p1, p2, p3);
      }
      if poll != NotYet {
        return;
      }
    }
    poll := NotYet;
  }

  /** The films of a year's whole table, or why there are none. */
  function YearFilms(site: Site, number: Option<int>, year: string): Films {
    if number.None? then Fails(BadYear)
    else
      match ParseFilms(site(year), number.value)
      case Malformed => Fails(MalformedFilm)
      case Ok(films) => Collected(films)
  }

  /** `_collect_year` until its table is on screen: the row there before, the click, and the wait. */
  method ShowTable(browser: Browser, year: string, patience: nat) returns (poll: Poll)
    requires browser.Valid() && browser.Settled()
    modifies browser`page, browser`commands, browser`renders
    ensures poll == Ready ==>
              && browser.Valid() && browser.Settled() && FirstRow(browser.site, browser.page).Some?
              && Screen(browser.site, browser.page).value.year == year
              && TableOf(browser.site, year, Rows(browser.site, browser.page),
                         FirstRow(browser.site, old(browser.page)).Some? || browser.RendersAtOnce())
    ensures old(browser.commands) <= browser.commands
    ensures poll == Raises ==> browser.LastFailed(old(browser.commands))
    ensures poll == Raises || browser.NoDriverError(old(browser.commands))
    ensures browser.Timely(patience) && browser.site(year) != [] ==>
              && poll == Ready
              && (FirstRow(browser.site, old(browser.page)).Some? || browser.NeverPartial() ==>
                    browser.page.Standing? && Rows(browser.site, browser.page) == browser.site(year))
  {
    var answer := browser.Command();
    if answer != Works {
      return Raises;
    }
    var previous := FirstRow(browser.site, browser.page);
    answer := browser.Click(year);
    if answer != Works {
      return Raises;
    }
    poll := WaitForTable(browser, previous, patience);
  }

  /** `_collect_year`; `table` is the rows `page_source` held. */
  method CollectYear(browser: Browser, year: string, number: Option<int>, patience: nat)
    returns (result: Films, ghost table: seq<RawFilm>)
    requires browser.Valid() && browser.Settled()
    modifies browser`page, browser`commands, browser`renders
    ensures result.Collected? ==>
              && browser.Valid() && browser.Settled() && FirstRow(browser.site, browser.page).Some?
              && TableOf(browser.site, year, table,
                         FirstRow(browser.site, old(browser.page)).Some? || browser.RendersAtOnce())
              && number.Some? && ParseFilms(table, number.value) == Ok(result.films)
    ensures old(browser.commands) <= browser.commands
    ensures result == Fails(DriverRaised) ==> browser.LastFailed(old(browser.commands))
    ensures result == Fails(DriverRaised) || browser.NoDriverError(old(browser.commands))
    ensures result == Fails(BadYear) ==> number.None?
    ensures result == Fails(MalformedFilm) ==>
              number.Some? && ParseFilms(table, number.value).Malformed? && table <= browser.site(year)
    ensures browser.Timely(patience) && browser.site(year) != [] ==>
              && result != Fails(TimedOut)
              && (FirstRow(browser.site, old(browser.page)).Some? || browser.NeverPartial() ==>
                    result == YearFilms(browser.site, number, year))
  {
    table := [];
    var poll := ShowTable(browser, year, patience);
    if poll != Ready {
      return Fails(if poll == Raises then DriverRaised else TimedOut), table;
    }
    ghost var whole := FirstRow(browser.site, old(browser.page)).Some? || browser.RendersAtOnce();
    ghost var ready := browser.page;
    var answer := browser.Command();
    if answer != Works {
      return Fails(DriverRaised), table;
    }
    var source := Rows(browser.site, browser.page);
    StillThatTable(browser.site, year, ready, browser.page, whole);
    table := source;
    if number.None? {
      return Fails(BadYear), table;
    }
    match ParseFilms(source, number.value) {
      case Malformed => result := Fails(MalformedFilm);
      case Ok(films) => result := Collected(films);
    }
  }

  lemma StillThatTable(site: Site, year: string, p: Page, q: Page, whole: bool)
    requires (p.Standing? || (p.Filling? && 1 <= p.count <= |site(p.year)|)) && Later(site, p, q)
    requires Screen(site, p).Some? && Screen(site, p).value.year == year && TableOf(site, year, Rows(site, p), whole)
    ensures TableOf(site, year, Rows(site, q), whole)
  {
  }

  function FilmsOrNone(films: Parsed<seq<OscarRow>>): seq<OscarRow> {
    if films.Ok? then films.value else []
  }

  /** Each year's films, as parsed with that year. */
  function Parts(years: seq<string>, number: string -> Option<int>, tables: seq<seq<RawFilm>>): seq<seq<OscarRow>>
    requires |tables| <= |years|
  {
    seq(|tables|, i requires 0 <= i < |tables| =>
      if number(years[i]).Some? then FilmsOrNone(ParseFilms(tables[i], number(years[i]).value)) else [])
  }

  /** The films of each year's table, tagged with that year, in link order. */
  function Tagged(years: seq<string>, number: string -> Option<int>, tables: seq<seq<RawFilm>>): seq<OscarRow>
    requires |tables| <= |years|
  {
    Flatten(Parts(years, number, tables))
  }

  /** The whole tables of the first `n` years, one after the other, up to the first year that fails. */
  function FilmsOf(site: Site, years: seq<string>, number: string -> Option<int>, n: nat): Films
    requires n <= |years|
  {
    if n == 0 then Collected([])
    else
      match FilmsOf(site, years, number, n - 1)
      case Fails(reason) => Fails(reason)
      case Collected(films) =>
        match YearFilms(site, number(years[n - 1]), years[n - 1])
        case Fails(reason) => Fails(reason)
        case Collected(more) => Collected(films + more)
  }

  lemma {:induction false} FirstFailureStays(site: Site, years: seq<string>, number: string -> Option<int>, n: nat,
          all: nat)
    requires n <= all <= |years| && FilmsOf(site, years, number, n).Fails?
    ensures FilmsOf(site, years, number, all) == FilmsOf(site, years, number, n)
  {
    if n < all {
      FirstFailureStays(site, years, number, n, all - 1);
    }
  }

  /** `if (year_id := link.get_attribute("id"))`. */
  function YearIds(links: seq<string>): seq<string> {
    Where(links, (id: string) => id != "")
  }

  /** `years` are the ids that are not empty, at their positions `at` among the links, in link order. */
  ghost predicate IdsAt(links: seq<string>, years: seq<string>, at: seq<nat>) {
    && |at| == |years|
    && (forall i, k | 0 <= i < k < |at| :: at[i] < at[k])
    && (forall i | 0 <= i < |at| :: at[i] < |links| && years[i] == links[at[i]] && years[i] != "")
    && (forall k: nat | k < |links| && links[k] != "" :: k in at)
  }

  ghost predicate AreIdsOf(years: seq<string>, links: seq<string>) {
    exists at: seq<nat> :: IdsAt(links, years, at)
  }

  /** The years clicked are those of the links with an id, each as often and in the order it is linked. */
  lemma {:induction false} YearIdsAt(links: seq<string>) returns (at: seq<nat>)
    ensures IdsAt(links, YearIds(links), at)
    decreases |links|
  {
    if links == [] {
      at := [];
    } else {
      var last := |links| - 1;
      assert links == links[..last] + [links[last]];
      WhereOneMore(links[..last], links[last], (id: string) => id != "");
      var before := YearIdsAt(links[..last]);
      at := before + if links[last] != "" then [last] else [];
      OneMoreId(links[..last], YearIds(links[..last]), before, links[last]);
    }
  }

  lemma OneMoreId(links: seq<string>, years: seq<string>, at: seq<nat>, id: string)
    requires IdsAt(links, years, at)
    ensures IdsAt(links + [id], years + (if id != "" then [id] else []), at + if id != "" then [|links|] else [])
  {
    var at' := at + if id != "" then [|links|] else [];
    forall k: nat | k < |links| + 1 && (links + [id])[k] != "" ensures k in at' {
      if k < |links| {
        assert links[k] != "" && k in at;
      } else {
        assert at'[|at|] == |links|;
      }
    }
  }

  /** Every year but the first was collected whole; so was the first when rows are put in all at once. */
  predicate AllTables(site: Site, years: seq<string>, number: string -> Option<int>, tables: seq<seq<RawFilm>>,
          atOnce: bool)
  {
    && |tables| <= |years|
    && forall i | 0 <= i < |tables| ::
         && TableOf(site, years[i], tables[i], i > 0 || atOnce)
         && number(years[i]).Some? && ParseFilms(tables[i], number(years[i]).value).Ok?
  }

  lemma OneMoreYear(site: Site, years: seq<string>, number: string -> Option<int>, tables: seq<seq<RawFilm>>,
          table: seq<RawFilm>, films: seq<OscarRow>, atOnce: bool)
    requires AllTables(site, years, number, tables, atOnce) && |tables| < |years|
    requires var year := years[|tables|];
             && TableOf(site, year, table, |tables| > 0 || atOnce)
             && number(year).Some? && ParseFilms(table, number(year).value) == Ok(films)
    ensures AllTables(site, years, number, tables + [table], atOnce)
    ensures Tagged(years, number, tables + [table]) == Tagged(years, number, tables) + films
  {
    var before, after := Parts(years, number, tables), Parts(years, number, tables + [table]);
    assert after[..|tables|] == before && after[|tables|] == films;
  }

  /** `_collect_all_years` from the year links on. */
  method CollectYears(browser: Browser, years: seq<string>, number: string -> Option<int>, patience: nat)
    returns (result: Films, ghost tables: seq<seq<RawFilm>>)
    requires browser.Valid() && browser.Settled()
    modifies browser`page, browser`commands, browser`renders
    ensures result.Collected? ==>
              && |tables| == |years| && AllTables(browser.site, years, number, tables, browser.RendersAtOnce())
              && result.films == Tagged(years, number, tables)
    ensures result == Fails(DriverRaised) ==> browser.LastFailed(old(browser.commands))
    ensures result == Fails(DriverRaised) || browser.NoDriverError(old(browser.commands))
    ensures old(browser.commands) <= browser.commands
    ensures result == Fails(BadYear) ==> exists year | year in years :: number(year).None?
    ensures browser.Timely(patience) && (forall year | year in years :: browser.site(year) != []) ==>
              && result != Fails(TimedOut)
              && (FirstRow(browser.site, old(browser.page)).Some? || browser.NeverPartial() ==>
                    result == FilmsOf(browser.site, years, number, |years|))
  {
    var films: seq<OscarRow> := [];
    tables := [];
    for i := 0 to |years|
      invariant browser.Valid() && browser.Settled()
      invariant |tables| == i && AllTables(browser.site, years, number, tables, browser.RendersAtOnce())
      invariant films == Tagged(years, number, tables)
      invariant i == 0 ==> browser.page == old(browser.page)
      invariant i > 0 ==> FirstRow(browser.site, browser.page).Some?
      invariant old(browser.commands) <= browser.commands && browser.NoDriverError(old(browser.commands))
      invariant browser.Timely(patience) && (forall year | year in years :: browser.site(year) != []) ==>
                  (FirstRow(browser.site, old(browser.page)).Some? || browser.NeverPartial() ==>
                     FilmsOf(browser.site, years, number, i) == Collected(films))
    {
      ghost var table;
      var year;
      year, table := CollectYear(browser, years[i], number(years[i]), patience);
      if year.Fails? {
        if FilmsOf(browser.site, years, number, i + 1).Fails? {
          FirstFailureStays(browser.site, years, number, i + 1, |years|);
        }
        return year, tables;
      }
      OneMoreYear(browser.site, years, number, tables, table, year.films, browser.RendersAtOnce());
      films, tables := films + year.films, tables + [table];
    }
    result := Collected(films);
  }

  /** `wait.until` for the year links. */
  method WaitForLinks(browser: Browser, patience: nat) returns (poll: Poll)
    requires browser.Valid() && browser.Settled()
    modifies browser`page, browser`commands
    ensures browser.Valid() && browser.Settled()
    ensures FirstRow(browser.site, browser.page) == FirstRow(browser.site, old(browser.page))
    ensures old(browser.commands) <= browser.commands
    ensures poll == Raises ==> browser.LastFailed(old(browser.commands))
    ensures poll == Raises ==> browser.answer(browser.commands - 1) == DriverError
    ensures poll == Raises || browser.NoDriverError(old(browser.commands))
    ensures poll == NotYet ==>
              forall n: nat | old(browser.commands) < n <= browser.commands ::
                browser.answer(n - 1) == NoSuchElement || browser.links(n) == []
    ensures poll == NotYet ==> browser.commands == old(browser.commands) + patience
    ensures poll == Ready ==> browser.links(browser.commands) != []
    ensures browser.AllWork() && browser.links(old(browser.commands) + patience) != [] ==>
              patience == 0 || poll == Ready
  {
    for i := 0 to patience
      invariant browser.Valid() && browser.Settled()
      invariant FirstRow(browser.site, browser.page) == FirstRow(browser.site, old(browser.page))
      invariant old(browser.commands) <= browser.commands
      invariant browser.commands == old(browser.commands) + i && browser.NoDriverError(old(browser.commands))
      invariant forall n: nat | old(browser.commands) < n <= browser.commands ::
                  browser.answer(n - 1) == NoSuchElement || browser.links(n) == []
    {
      var answer := browser.Command();
      poll := if answer != Works then PollOf(answer)
              else if browser.links(browser.commands) != [] then Ready else NotYet;
      if poll != NotYet {
        return;
      }
    }
    poll := NotYet;
  }

  /** `_collect_all_years` up to the list of years: the page, the wait for its links, and their ids. */
  method FindYears(browser: Browser, patience: nat) returns (poll: Poll, years: seq<string>)
    requires browser.Valid() && browser.page == Standing(None)
    modifies browser`page, browser`commands
    ensures browser.Valid() && browser.Settled() && old(browser.commands) < browser.commands
    ensures poll == Ready ==> AreIdsOf(years, browser.links(browser.commands))
    ensures poll == Raises ==> browser.LastFailed(old(browser.commands))
    ensures poll == Raises || browser.NoDriverError(old(browser.commands))
    ensures poll == Ready ==> browser.links(browser.commands - 1) != []
    ensures browser.AllWork() && patience >= 1 && browser.links(old(browser.commands) + 1 + patience) != [] ==>
              poll == Ready
  {
    years := [];
    var answer := browser.Command();
    if answer != Works {
      return Raises, years;
    }
    poll := WaitForLinks(browser, patience);
    if poll != Ready {
      return;
    }
    answer := browser.Command();
    if answer != Works {
      return Raises, years;
    }
    years := YearIds(browser.links(browser.commands));
    ghost var at := YearIdsAt(browser.links(browser.commands));
  }

  /**
   * `crawl`: nothing is returned unless every year's table was reached and parsed, and the session is
   * closed in any case.
   */
  method Crawl(browser: Browser, number: string -> Option<int>, patience: nat)
    returns (result: Films, ghost years: seq<string>, ghost tables: seq<seq<RawFilm>>)
    requires browser.Valid() && browser.page == Standing(None) && !browser.closed
    modifies browser
    ensures browser.closed
    ensures result.Collected? ==>
              && |tables| == |years| && AllTables(browser.site, years, number, tables, browser.RendersAtOnce())
              && result.films == Tagged(years, number, tables)
              && exists n: nat :: old(browser.commands) < n <= browser.commands && AreIdsOf(years, browser.links(n))
    ensures result == Fails(DriverRaised) ==> browser.LastFailed(old(browser.commands))
    ensures result == Fails(DriverRaised) || browser.NoDriverError(old(browser.commands))
    ensures browser.Timely(patience) ==>
              forall links: seq<string> | browser.LinksAppear(links, old(browser.commands), patience) ::
                && AreIdsOf(years, links)
                && ((forall year | year in years :: browser.site(year) != []) ==>
                      && result != Fails(TimedOut)
                      && (browser.NeverPartial() ==> result == FilmsOf(browser.site, years, number, |years|)))
  {
    tables := [];
    browser.TimelyTakesCommands(patience);
    var poll, ids := FindYears(browser, patience);
    years := ids;
    if poll == Ready {
      ghost var n := browser.commands;
      result, tables := CollectYears(browser, ids, number, patience);
      assert AreIdsOf(years, browser.links(n));
      forall links | browser.LinksAppear(links, old(browser.commands), patience) ensures links == browser.links(n) {
        browser.LinksStay(links, old(browser.commands), patience, n - 1);
      }
    } else {
      result := Fails(if poll == Raises then DriverRaised else TimedOut);
    }
    assert result == Fails(DriverRaised) ==>
        old(browser.commands) < browser.commands && browser.answer(browser.commands - 1) != Works;
    browser.closed := true;
  }

  /** A film of a row of one of the tables, tagged with the year of the link that table was shown for. */
  predicate FromTable(years: seq<string>, number: string -> Option<int>, tables: seq<seq<RawFilm>>, film: OscarRow,
          i: nat, k: nat) {
    && i < |tables| <= |years| && k < |tables[i]|
    && number(years[i]) == Some(film.year)
    && ParseFilm(tables[i][k], film.year) == Ok(film)
  }

  /**
   * Every collected film carries the year whose table rendered it, and no row of a collected table is
   * missing: a film is there exactly if it comes from a row of some year's table, tagged with that year.
   */
  lemma EveryFilmIsTagged(site: Site, years: seq<string>, number: string -> Option<int>, tables: seq<seq<RawFilm>>,
          atOnce: bool, film: OscarRow)
    requires AllTables(site, years, number, tables, atOnce)
    ensures film in Tagged(years, number, tables)
       <==> exists i: nat, k: nat :: FromTable(years, number, tables, film, i, k)
  {
    var parts := Parts(years, number, tables);
    InFlatten(parts, film);
    if i :| 0 <= i < |parts| && film in parts[i] {
      var k := FilmHasRow(years, number, tables, film, i);
    }
    if i: nat, k: nat :| FromTable(years, number, tables, film, i, k) {
      FilmsCarryYear(tables[i], film.year);
      assert ParseFilms(tables[i], film.year).value[k] == film;
      assert film in parts[i];
    }
  }

  lemma FilmHasRow(years: seq<string>, number: string -> Option<int>, tables: seq<seq<RawFilm>>, film: OscarRow,
          i: nat) returns (k: nat)
    requires i < |tables| <= |years| && number(years[i]).Some? && ParseFilms(tables[i], number(years[i]).value).Ok?
    requires film in ParseFilms(tables[i], number(years[i]).value).value
    ensures FromTable(years, number, tables, film, i, k)
  {
    var year := number(years[i]).value;
    FilmsCarryYear(tables[i], year);
    k :| 0 <= k < |tables[i]| && ParseFilms(tables[i], year).value[k] == film;
  }
}
