/** The hockey listing page and its parser. */
module HockeyParser {
  import opened Domain
  import opened Html

  /** A `tr.team`: the cell each selector finds, or none. */
  datatype RawRow = RawRow(
    name: Option<Cell>,
    year: Option<Cell>,
    wins: Option<Cell>,
    losses: Option<Cell>,
    otLosses: Option<Cell>,
    pct: Option<Cell>,
    goalsFor: Option<Cell>,
    goalsAgainst: Option<Cell>,
    diff: Option<Cell>)

  /** A page: its team rows and, when there is a pagination block, the page number each link carries. */
  datatype Page = Page(rows: seq<RawRow>, pagination: Option<seq<Option<nat>>>)

  /** `_optional_int`: an empty cell is no number, a missing one is still an error. */
  function OptionalIntCell(cell: Option<Cell>): Parsed<Option<int>> {
    if cell.None? then Malformed
    else if cell.value.text == "" then Ok(None)
    else if cell.value.asInt.Some? then Ok(Some(cell.value.asInt.value))
    else Malformed
  }

  function ParseRow(row: RawRow): Parsed<HockeyRow> {
    if TextCell(row.name).Ok? && IntCell(row.year).Ok? && IntCell(row.wins).Ok? && IntCell(row.losses).Ok?
       && OptionalIntCell(row.otLosses).Ok? && FloatCell(row.pct).Ok? && IntCell(row.goalsFor).Ok?
       && IntCell(row.goalsAgainst).Ok? && IntCell(row.diff).Ok?
    then
      Ok(HockeyRow(
        TextCell(row.name).value, IntCell(row.year).value, IntCell(row.wins).value, IntCell(row.losses).value,
        OptionalIntCell(row.otLosses).value, FloatCell(row.pct).value, IntCell(row.goalsFor).value,
        IntCell(row.goalsAgainst).value, IntCell(row.diff).value))
    else Malformed
  }

  function ParseTeams(page: Page): Parsed<seq<HockeyRow>> {
    ParseAll(page.rows, ParseRow)
  }

  /**
   * A row parses exactly when every cell is there and numeric where a number is due; only `ot_losses`
   * may be empty. Each value comes from its own cell.
   */
  lemma ParseRowExact(row: RawRow)
    ensures ParseRow(row).Ok? <==>
              && row.name.Some?
              && (forall cell | cell in [row.year, row.wins, row.losses, row.goalsFor, row.goalsAgainst, row.diff] ::
                    cell.Some? && cell.value.asInt.Some?)
              && row.pct.Some? && row.pct.value.asFloat.Some?
              && row.otLosses.Some? && (row.otLosses.value.text == "" || row.otLosses.value.asInt.Some?)
    ensures ParseRow(row).Ok? ==>
              var team := ParseRow(row).value;
              && team.teamName == row.name.value.text
              && [row.year.value.asInt, row.wins.value.asInt, row.losses.value.asInt, row.goalsFor.value.asInt,
                  row.goalsAgainst.value.asInt, row.diff.value.asInt]
                 == [Some(team.year), Some(team.wins), Some(team.losses), Some(team.goalsFor),
                     Some(team.goalsAgainst), Some(team.goalDiff)]
              && row.pct.value.asFloat == Some(team.winPct)
              && team.otLosses == if row.otLosses.value.text == "" then None else row.otLosses.value.asInt
  {
    var ints := [row.year, row.wins, row.losses, row.goalsFor, row.goalsAgainst, row.diff];
    assert ints[0] in ints && ints[1] in ints && ints[2] in ints && ints[3] in ints;
    assert ints[4] in ints && ints[5] in ints;
  }

  /** `[int(...) for link if match]`. */
  function Numbers(links: seq<Option<nat>>): seq<nat> {
    if links == [] then []
    else (if links[0].Some? then [links[0].value] else []) + Numbers(links[1..])
  }

  function MaxOf(pages: seq<nat>): nat
    requires pages != []
  {
    if |pages| == 1 then pages[0]
    else
      var rest := MaxOf(pages[1..]);
      if pages[0] > rest then pages[0] else rest
  }

  /** `max(pages, default=1)` over the numbered links; 1 without a pagination block. */
  function TotalPages(page: Page): nat {
    if page.pagination.None? || Numbers(page.pagination.value) == [] then 1
    else MaxOf(Numbers(page.pagination.value))
  }

  lemma {:induction false} MaxIsLargest(pages: seq<nat>)
    requires pages != []
    ensures MaxOf(pages) in pages && forall n | n in pages :: n <= MaxOf(pages)
  {
    if |pages| > 1 {
      MaxIsLargest(pages[1..]);
      assert forall n :: n in pages <==> n == pages[0] || n in pages[1..];
    }
  }

  /** The page count is the largest number any pagination link carries, and 1 if there is none. */
  lemma TotalPagesIsLargestLink(page: Page)
    ensures var links := if page.pagination.Some? then page.pagination.value else [];
            && (forall i | 0 <= i < |links| && links[i].Some? :: links[i].value <= TotalPages(page))
            && (Some(TotalPages(page)) in links || (TotalPages(page) == 1 && forall l | l in links :: l.None?))
  {
    if page.pagination.Some? {
      NumbersOfLinks(page.pagination.value);
      if Numbers(page.pagination.value) != [] {
        MaxIsLargest(Numbers(page.pagination.value));
      }
    }
  }

  lemma {:induction false} NumbersOfLinks(links: seq<Option<nat>>)
    ensures forall n: nat :: n in Numbers(links) <==> Some(n) in links
    ensures Numbers(links) == [] ==> forall l | l in links :: l.None?
  {
    if links != [] {
      NumbersOfLinks(links[1..]);
      assert forall l :: l in links <==> l == links[0] || l in links[1..];
    }
  }
}
