/**
 * The two table shapes of the match database and the flat row the
 * extraction step hands to the table.
 *
 * The wide table (version 1) has one row per match: the match id, the
 * champion in each of the five roles of each side, and whether blue won.
 * The narrow table (version 2) has one row per (match, side, column).
 */
module Schema {
  import opened Seqs

  datatype Team = Blue | Red

  /** The five positions, in the order of the wide table's columns. */
  datatype Role = Top | Jungle | Middle | Bottom | Utility

  /** The sort key of a position, and the index of its column within a side. */
  function Rank(role: Role): (k: nat)
    ensures k < 5
    ensures RoleAt(k) == role
  {
    match role
    case Top => 0
    case Jungle => 1
    case Middle => 2
    case Bottom => 3
    case Utility => 4
  }

  function RoleAt(k: nat): Role
    requires k < 5
  {
    if k == 0 then Top
    else if k == 1 then Jungle
    else if k == 2 then Middle
    else if k == 3 then Bottom
    else Utility
  }

  /** The five champion columns of one side of a wide row. */
  datatype Lineup = Lineup(top: string, jungle: string, middle: string, bottom: string, utility: string) {

    function At(role: Role): (c: string)
      ensures c == Champions()[Rank(role)]
    {
      match role
      case Top => top
      case Jungle => jungle
      case Middle => middle
      case Bottom => bottom
      case Utility => utility
    }

    /** The side's champions in column order. */
    function Champions(): seq<string> {
      [top, jungle, middle, bottom, utility]
    }
  }

  /** A row of the version 1 table: `match_id`, `blue_top` .. `red_supp`, `blue_win`. */
  datatype WideRow = WideRow(matchId: string, blue: Lineup, red: Lineup, blueWin: bool) {

    function Side(team: Team): Lineup {
      if team == Blue then blue else red
    }

    /** Whether `team` won this match. */
    function Won(team: Team): bool {
      if team == Blue then blueWin else !blueWin
    }
  }

  /** A row of the version 2 table as the derivation produces it. */
  datatype NarrowRow = NarrowRow(matchId: string, team: Team, champion: string, win: bool)

  /** One element of the untyped row list built by the extraction step. */
  datatype Cell = Text(text: string) | Flag(flag: bool)

  function Texts(cs: seq<string>): (r: seq<Cell>)
    ensures |r| == |cs|
    ensures forall i :: 0 <= i < |cs| ==> r[i] == Text(cs[i])
  {
    seq(|cs|, i requires 0 <= i < |cs| => Text(cs[i]))
  }

  /** The row list `[match_id] + blue + red + [blue_win]` of a wide row. */
  function Flatten(w: WideRow): seq<Cell> {
    [Text(w.matchId)] + Texts(w.blue.Champions()) + Texts(w.red.Champions()) + [Flag(w.blueWin)]
  }

  /** Whether a row list fits the version 1 schema: eleven strings, then a boolean. */
  predicate FitsSchema(row: seq<Cell>) {
    |row| == 12 && (forall i :: 0 <= i < 11 ==> row[i].Text?) && row[11].Flag?
  }

  /**
   * The wide row a row list stands for once it is loaded under the version 1
   * schema, or None when the list does not fit that schema.
   */
  function FromCells(row: seq<Cell>): (r: Option<WideRow>)
    ensures r.Some? <==> FitsSchema(row)
    ensures r.Some? ==> Flatten(r.value) == row
  {
    if FitsSchema(row) then
      var w := WideRow(
        row[0].text,
        Lineup(row[1].text, row[2].text, row[3].text, row[4].text, row[5].text),
        Lineup(row[6].text, row[7].text, row[8].text, row[9].text, row[10].text),
        row[11].flag);
      assert Flatten(w) == row by {
        var f := Flatten(w);
        assert |f| == 12;
        forall i | 0 <= i < 12 ensures f[i] == row[i] {
          if 1 <= i < 6 {
            assert f[i] == Texts(w.blue.Champions())[i - 1];
          } else if 6 <= i < 11 {
            assert f[i] == Texts(w.red.Champions())[i - 6];
          }
        }
      }
      Some(w)
    else None
  }

  /** Every wide row survives the trip through its row list. */
  lemma FlattenRoundTrip(w: WideRow)
    ensures FitsSchema(Flatten(w))
    ensures FromCells(Flatten(w)) == Some(w)
  {
    var f := Flatten(w);
    assert f[0] == Text(w.matchId);
    assert f[1..6] == Texts(w.blue.Champions());
    assert f[6..11] == Texts(w.red.Champions());
    assert f[11] == Flag(w.blueWin);
  }
}
