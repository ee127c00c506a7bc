/** The page whose film table is rendered by script after a click, and the test that it is ready. */
module OscarPage {
  import opened Domain
  import opened Html

  /** A `tr.film`: the cell each selector finds, or none; the last one says whether it holds the icon. */
  datatype RawFilm = RawFilm(
    title: Option<Cell>,
    nominations: Option<Cell>,
    awards: Option<Cell>,
    bestPicture: Option<bool>)

  function ParseFilm(film: RawFilm, year: int): Parsed<OscarRow> {
    if TextCell(film.title).Ok? && IntCell(film.nominations).Ok? && IntCell(film.awards).Ok? && film.bestPicture.Some?
    then
      Ok(OscarRow(year, TextCell(film.title).value, IntCell(film.nominations).value, IntCell(film.awards).value,
                  film.bestPicture.value))
    else Malformed
  }

  /** A row parses exactly when its four cells are there, two of them numbers; each value comes from its own cell. */
  lemma ParseFilmExact(film: RawFilm, year: int)
    ensures ParseFilm(film, year).Ok? <==>
              && film.title.Some? && film.bestPicture.Some?
              && (forall cell | cell in [film.nominations, film.awards] :: cell.Some? && cell.value.asInt.Some?)
    ensures ParseFilm(film, year).Ok? ==>
              var row := ParseFilm(film, year).value;
              && row.year == year && row.title == film.title.value.text
              && film.nominations.value.asInt == Some(row.nominations) && film.awards.value.asInt == Some(row.awards)
              && film.bestPicture == Some(row.bestPicture)
  {
    var ints := [film.nominations, film.awards];
    assert ints[0] in ints && ints[1] in ints;
  }

  /** `parse_films`: the rows carry no year, so the caller supplies it. */
  function ParseFilms(films: seq<RawFilm>, year: int): Parsed<seq<OscarRow>> {
    ParseAll(films, (film: RawFilm) => ParseFilm(film, year))
  }

  /** The rows the server has for each year link. */
  type Site = string -> seq<RawFilm>

  /** Rows on screen: which rendering they belong to (element identity) and whose rows they are. */
  datatype Shown = Shown(render: nat, year: string, rows: seq<RawFilm>)

  /**
   * What a click on a year goes through: the old table is still there; it is cleared and the spinner
   * shows; the new rows are put in under the spinner, all at once or one by one; the table stands.
   */
  datatype Page =
    | Standing(table: Option<Shown>)
    | Clicked(shown: Option<Shown>, year: string, render: nat)
    | Loading(year: string, render: nat)
    | Filling(year: string, render: nat, count: nat)

  function Finished(site: Site, year: string, render: nat): Page {
    Standing(Some(Shown(render, year, site(year))))
  }

  /** Pages `p` can turn into, by any number of stages, while nobody clicks. */
  predicate Later(site: Site, p: Page, q: Page) {
    match p
    case Standing(_) => q == p
    case Clicked(_, year, render) => q == p || q == Loading(year, render) || Rendered(site, year, render, 0, q)
    case Loading(year, render) => q == p || Rendered(site, year, render, 0, q)
    case Filling(year, render, count) => Rendered(site, year, render, count, q)
  }

  /** At least `count` rows of the year's table are there. */
  predicate Rendered(site: Site, year: string, render: nat, count: nat, q: Page) {
    || q == Finished(site, year, render)
    || (q.Filling? && q.year == year && q.render == render && count <= q.count <= |site(year)|)
  }

  lemma LaterIsTransitive(site: Site, p: Page, q: Page, r: Page)
    requires Later(site, p, q) && Later(site, q, r)
    ensures Later(site, p, r)
  {
  }

  /** The table on screen. */
  function Screen(site: Site, page: Page): Option<Shown> {
    match page
    case Standing(table) => table
    case Clicked(shown, _, _) => shown
    case Loading(_, _) => None
    case Filling(year, render, count) =>
      Some(Shown(render, year, if count <= |site(year)| then site(year)[..count] else site(year)))
  }

  function Rows(site: Site, page: Page): seq<RawFilm> {
    if Screen(site, page).Some? then Screen(site, page).value.rows else []
  }

  /** `previous_rows[0] if previous_rows else None`, as the rendering the element belongs to. */
  function FirstRow(site: Site, page: Page): Option<nat> {
    if Rows(site, page) != [] then Some(Screen(site, page).value.render) else None
  }

  /** The element is no longer attached. */
  predicate IsStale(site: Site, page: Page, element: nat) {
    Rows(site, page) == [] || Screen(site, page).value.render != element
  }

  predicate SpinnerShown(page: Page) {
    page.Loading? || page.Filling?
  }

  /** `_table_ready`, its three reads answered by three successive states of the page. */
  predicate TableReady(site: Site, previous: Option<nat>, p1: Page, p2: Page, p3: Page) {
    && (previous.Some? ==> IsStale(site, p1, previous.value))
    && !SpinnerShown(p2)
    && |Rows(site, p3)| > 0
  }

  /** The reads happen one after the other on a page that keeps changing after the click. */
  predicate Reads(site: Site, shown: Option<Shown>, year: string, render: nat, p1: Page, p2: Page, p3: Page) {
    Later(site, Clicked(shown, year, render), p1) && Later(site, p1, p2) && Later(site, p2, p3)
  }

  /** The rendering about to start is a new one. */
  predicate Renews(shown: Option<Shown>, render: nat) {
    shown.Some? ==> shown.value.render < render
  }

  function Previous(shown: Option<Shown>): Option<nat> {
    if shown.Some? && shown.value.rows != [] then Some(shown.value.render) else None
  }

  /** Ready means rows of the clicked year are on screen, and stay there until the next click. */
  lemma ReadyMeansClickedYear(site: Site, shown: Option<Shown>, year: string, render: nat, p1: Page, p2: Page,
          p3: Page, p4: Page)
    requires Renews(shown, render) && Reads(site, shown, year, render, p1, p2, p3)
    requires TableReady(site, Previous(shown), p1, p2, p3) && Later(site, p3, p4)
    ensures Rows(site, p4) != [] && Rows(site, p4) <= site(year)
    ensures Screen(site, p4).value.year == year && Screen(site, p4).value.render == render
    ensures Rendered(site, year, render, 1, p4)
  {
  }

  /** If a row was on screen before the click, its being stale shows that the click took effect. */
  lemma ReadyAfterRow(site: Site, shown: Option<Shown>, year: string, render: nat, p1: Page, p2: Page, p3: Page)
    requires Renews(shown, render) && Reads(site, shown, year, render, p1, p2, p3)
    requires TableReady(site, Previous(shown), p1, p2, p3)
    ensures Previous(shown).Some? ==> p3 == Finished(site, year, render)
  {
  }

  /**
   * Without one, the spinner can be looked for before it appears and the rows after any number of them
   * have been put in: every nonempty front of the table can be taken for the whole.
   */
  lemma AnyFrontCanBeTaken(site: Site, shown: Option<Shown>, year: string, render: nat, count: nat)
    returns (p1: Page, p2: Page, p3: Page)
    requires Previous(shown).None? && 1 <= count <= |site(year)|
    ensures Reads(site, shown, year, render, p1, p2, p3) && TableReady(site, Previous(shown), p1, p2, p3)
    ensures Rows(site, p3) == site(year)[..count]
  {
    p1, p2, p3 := Clicked(shown, year, render), Clicked(shown, year, render), Filling(year, render, count);
  }

  /** Whenever the three signals say ready, the clicked year's whole table is on screen. */
  ghost predicate ReadyIsComplete(site: Site, shown: Option<Shown>, year: string, render: nat) {
    forall p1, p2, p3 | Reads(site, shown, year, render, p1, p2, p3) && TableReady(site, Previous(shown), p1, p2, p3) ::
      Rows(site, p3) == site(year)
  }

  /**
   * The three signals are enough exactly if a row was on screen before the click or the clicked year has
   * at most one.
   */
  lemma ReadyMeansComplete(site: Site, shown: Option<Shown>, year: string, render: nat)
    requires Renews(shown, render)
    ensures ReadyIsComplete(site, shown, year, render) <==> Previous(shown).Some? || |site(year)| <= 1
  {
    if Previous(shown).Some? || |site(year)| <= 1 {
      forall p1, p2, p3 | Reads(site, shown, year, render, p1, p2, p3) && TableReady(site, Previous(shown), p1, p2, p3)
        ensures Rows(site, p3) == site(year)
      {
        ReadyMeansClickedYear(site, shown, year, render, p1, p2, p3, p3);
        ReadyAfterRow(site, shown, year, render, p1, p2, p3);
      }
    } else {
      var p1, p2, p3 := AnyFrontCanBeTaken(site, shown, year, render, 1);
      assert |Rows(site, p3)| == 1;
    }
  }

  /** The first signal, when there was a row whose going stale can be waited for. */
  predicate PreviousGone(site: Site, shown: Option<Shown>, p1: Page) {
    Previous(shown).Some? ==> IsStale(site, p1, Previous(shown).value)
  }

  /** Without the first signal the table of before the click can be taken for the clicked year's. */
  ghost predicate OldTablePasses(site: Site, shown: Option<Shown>, year: string, render: nat) {
    exists p1, p2, p3 :: Reads(site, shown, year, render, p1, p2, p3)
      && !SpinnerShown(p2) && |Rows(site, p3)| > 0 && Screen(site, p3).value.render != render
  }

  /** Without the second signal part of the table can be taken for the whole. */
  ghost predicate PartialTablePasses(site: Site, shown: Option<Shown>, year: string, render: nat) {
    exists p1, p2, p3 :: Reads(site, shown, year, render, p1, p2, p3)
      && PreviousGone(site, shown, p1) && |Rows(site, p3)| > 0 && Rows(site, p3) != site(year)
  }

  /** Without the third signal a page with no row can be taken for ready. */
  ghost predicate EmptyPagePasses(site: Site, shown: Option<Shown>, year: string, render: nat) {
    exists p1, p2, p3 :: Reads(site, shown, year, render, p1, p2, p3)
      && PreviousGone(site, shown, p1) && !SpinnerShown(p2) && Rows(site, p3) == []
  }

  lemma OldTableIff(site: Site, shown: Option<Shown>, year: string, render: nat)
    requires Renews(shown, render)
    ensures OldTablePasses(site, shown, year, render) <==> Previous(shown).Some?
  {
    var before := Clicked(shown, year, render);
    if Previous(shown).Some? {
      assert Reads(site, shown, year, render, before, before, before);
    }
  }

  lemma GoneMeansRendering(site: Site, shown: Option<Shown>, year: string, render: nat, p1: Page, p2: Page, p3: Page)
    requires Renews(shown, render) && Reads(site, shown, year, render, p1, p2, p3) && PreviousGone(site, shown, p1)
    ensures Rows(site, p3) <= site(year)
  {
  }

  lemma PartialTableIff(site: Site, shown: Option<Shown>, year: string, render: nat)
    requires Renews(shown, render)
    ensures PartialTablePasses(site, shown, year, render) <==> |site(year)| >= 2
  {
    var filling := Filling(year, render, 1);
    if |site(year)| >= 2 {
      assert Reads(site, shown, year, render, filling, filling, filling) && |Rows(site, filling)| == 1;
    } else {
      forall p1, p2, p3 | Reads(site, shown, year, render, p1, p2, p3) && PreviousGone(site, shown, p1)
        ensures Rows(site, p3) == [] || Rows(site, p3) == site(year)
      {
        GoneMeansRendering(site, shown, year, render, p1, p2, p3);
      }
    }
  }

  lemma EmptyPageIff(site: Site, shown: Option<Shown>, year: string, render: nat)
    requires Renews(shown, render)
    ensures EmptyPagePasses(site, shown, year, render) <==> Previous(shown).None? || site(year) == []
  {
    var before, whole := Clicked(shown, year, render), Finished(site, year, render);
    if Previous(shown).None? {
      assert Reads(site, shown, year, render, before, before, before) && Rows(site, before) == [];
    } else if site(year) == [] {
      assert Reads(site, shown, year, render, whole, whole, whole) && Rows(site, whole) == [];
    }
  }

  /**
   * When each signal is needed: the first exactly if a row was on screen before the click, the second
   * exactly if the clicked year has two rows or more, and the third exactly if there was no row before
   * the click or the clicked year has none.
   */
  lemma WhenEachSignalIsNeeded(site: Site, shown: Option<Shown>, year: string, render: nat)
    requires Renews(shown, render)
    ensures OldTablePasses(site, shown, year, render) <==> Previous(shown).Some?
    ensures PartialTablePasses(site, shown, year, render) <==> |site(year)| >= 2
    ensures EmptyPagePasses(site, shown, year, render) <==> Previous(shown).None? || site(year) == []
  {
    OldTableIff(site, shown, year, render);
    PartialTableIff(site, shown, year, render);
    EmptyPageIff(site, shown, year, render);
  }

  /** Parsing gives every film the year it was asked with, one film for each row on screen, or fails as a whole. */
  lemma FilmsCarryYear(films: seq<RawFilm>, year: int)
    ensures ParseFilms(films, year).Ok? ==>
              && |ParseFilms(films, year).value| == |films|
              && forall i | 0 <= i < |films| ::
                   var film := ParseFilms(films, year).value[i];
                   film.year == year && ParseFilm(films[i], year) == Ok(film)
    ensures ParseFilms(films, year).Malformed? <==> exists i :: 0 <= i < |films| && ParseFilm(films[i], year).Malformed?
  {
    ParseAllOrNothing(films, (film: RawFilm) => ParseFilm(film, year));
  }
}
