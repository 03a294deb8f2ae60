/**
 * The winrate query of the database service (`Database.Winrate`).
 *
 * Version 2 filters the narrow table on the champion, then on the win
 * flag, and divides the two counts. Version 1 filters the wide table once
 * per champion column of each side, appends the five results of a side
 * (Spark's `union` keeps duplicates), counts the blue results with
 * `blue_win` and the red results without it as wins, and divides by the
 * number of rows found. Counts are kept as a pair of naturals and the
 * quotient as a `real`; a query for a champion that never appears divides
 * by zero.
 */
module Aggregation {
  import opened Schema
  import opened Derivation

  /** Wins and games of a champion. */
  datatype Tally = Tally(wins: nat, games: nat)

  /** The reply of the service, or the division by zero it raises. */
  datatype Reply = Winrate(winrate: real) | DivisionByZero

  /** The two tables the service reads. */
  datatype Database = Database(wide: seq<WideRow>, narrow: seq<NarrowRow>)

  // ---------------------------------------------------------------------
  // Version 2: the narrow table

  /** `df_v2.filter(champion == c)` */
  function ChampionRows(df: seq<NarrowRow>, c: string): (r: seq<NarrowRow>)
    ensures |r| <= |df|
  {
    if df == [] then [] else (if df[0].champion == c then [df[0]] else []) + ChampionRows(df[1..], c)
  }

  /** `champ_df.filter(win == True)` */
  function WinningRows(rows: seq<NarrowRow>): (r: seq<NarrowRow>)
    ensures |r| <= |rows|
  {
    if rows == [] then [] else (if rows[0].win then [rows[0]] else []) + WinningRows(rows[1..])
  }

  lemma {:induction false} ChampionRowsMembership(df: seq<NarrowRow>, c: string, x: NarrowRow)
    ensures x in ChampionRows(df, c) <==> x in df && x.champion == c
  {
    if df != [] {
      ChampionRowsMembership(df[1..], c, x);
      assert df == [df[0]] + df[1..];
    }
  }

  lemma {:induction false} WinningRowsMembership(rows: seq<NarrowRow>, x: NarrowRow)
    ensures x in WinningRows(rows) <==> x in rows && x.win
  {
    if rows != [] {
      WinningRowsMembership(rows[1..], x);
      assert rows == [rows[0]] + rows[1..];
    }
  }

  lemma {:induction false} ChampionRowsConcat(a: seq<NarrowRow>, b: seq<NarrowRow>, c: string)
    ensures ChampionRows(a + b, c) == ChampionRows(a, c) + ChampionRows(b, c)
  {
    if a == [] {
      assert a + b == b;
    } else {
      var h := if a[0].champion == c then [a[0]] else [];
      assert (a + b)[0] == a[0];
      assert (a + b)[1..] == a[1..] + b;
      ChampionRowsConcat(a[1..], b, c);
      assert h + (ChampionRows(a[1..], c) + ChampionRows(b, c)) == (h + ChampionRows(a[1..], c)) + ChampionRows(b, c);
    }
  }

  lemma {:induction false} WinningRowsConcat(a: seq<NarrowRow>, b: seq<NarrowRow>)
    ensures WinningRows(a + b) == WinningRows(a) + WinningRows(b)
  {
    if a == [] {
      assert a + b == b;
    } else {
      var h := if a[0].win then [a[0]] else [];
      assert (a + b)[0] == a[0];
      assert (a + b)[1..] == a[1..] + b;
      WinningRowsConcat(a[1..], b);
      assert h + (WinningRows(a[1..]) + WinningRows(b)) == (h + WinningRows(a[1..])) + WinningRows(b);
    }
  }

  /** The champion filter keeps every copy of the champion's rows and nothing else. */
  lemma {:induction false} ChampionRowsCount(df: seq<NarrowRow>, c: string, x: NarrowRow)
    ensures multiset(ChampionRows(df, c))[x] == if x.champion == c then multiset(df)[x] else 0
  {
    if df != [] {
      ChampionRowsCount(df[1..], c, x);
      assert df == [df[0]] + df[1..];
    }
  }

  /** The win filter keeps every copy of the winning rows and nothing else. */
  lemma {:induction false} WinningRowsCount(rows: seq<NarrowRow>, x: NarrowRow)
    ensures multiset(WinningRows(rows))[x] == if x.win then multiset(rows)[x] else 0
  {
    if rows != [] {
      WinningRowsCount(rows[1..], x);
      assert rows == [rows[0]] + rows[1..];
    }
  }

  /**
   * The version 2 counts: wins are the champion's rows with the win flag,
   * games all of the champion's rows.
   */
  function TallyV2(df: seq<NarrowRow>, c: string): (t: Tally)
    ensures t.wins <= t.games
    ensures t.games == 0 <==> forall x :: x in df ==> x.champion != c
    ensures t.wins == 0 <==> forall x :: x in df && x.champion == c ==> !x.win
  {
    var champ := ChampionRows(df, c);
    var wins := WinningRows(champ);
    forall x ensures x in wins <==> x in df && x.champion == c && x.win {
      ChampionRowsMembership(df, c, x);
      WinningRowsMembership(champ, x);
    }
    assert |champ| == 0 <==> forall x :: x in df ==> x.champion != c by {
      if |champ| != 0 {
        ChampionRowsMembership(df, c, champ[0]);
      }
      forall x | x in df && x.champion == c ensures |champ| != 0 {
        ChampionRowsMembership(df, c, x);
      }
    }
    assert |wins| == 0 <==> forall x :: x in df && x.champion == c ==> !x.win by {
      if |wins| != 0 {
        assert wins[0] in wins;
      }
    }
    Tally(|wins|, |champ|)
  }

  // ---------------------------------------------------------------------
  // Version 1: the wide table

  /** `df.filter(<column of team at role> == c)` */
  function ColumnRows(df: seq<WideRow>, team: Team, role: Role, c: string): (r: seq<WideRow>)
    ensures |r| <= |df|
  {
    if df == [] then []
    else (if df[0].Side(team).At(role) == c then [df[0]] else []) + ColumnRows(df[1..], team, role, c)
  }

  /** The union of the five column filters of a side, duplicates kept. */
  function SideRows(df: seq<WideRow>, team: Team, c: string): seq<WideRow> {
    ColumnRows(df, team, Top, c) + ColumnRows(df, team, Jungle, c) + ColumnRows(df, team, Middle, c)
      + ColumnRows(df, team, Bottom, c) + ColumnRows(df, team, Utility, c)
  }

  /** `rows.filter(blue_win == blueWin)` */
  function WithResult(rows: seq<WideRow>, blueWin: bool): (r: seq<WideRow>)
    ensures |r| <= |rows|
  {
    if rows == [] then [] else (if rows[0].blueWin == blueWin then [rows[0]] else []) + WithResult(rows[1..], blueWin)
  }

  lemma {:induction false} WithResultConcat(a: seq<WideRow>, b: seq<WideRow>, blueWin: bool)
    ensures WithResult(a + b, blueWin) == WithResult(a, blueWin) + WithResult(b, blueWin)
  {
    if a == [] {
      assert a + b == b;
    } else {
      var h := if a[0].blueWin == blueWin then [a[0]] else [];
      assert (a + b)[0] == a[0];
      assert (a + b)[1..] == a[1..] + b;
      WithResultConcat(a[1..], b, blueWin);
      assert h + (WithResult(a[1..], blueWin) + WithResult(b, blueWin)) == (h + WithResult(a[1..], blueWin)) + WithResult(b, blueWin);
    }
  }

  /**
   * The version 1 counts: games are the rows found by all ten column
   * filters, wins the blue ones with `blue_win` plus the red ones without.
   */
  function TallyV1(df: seq<WideRow>, c: string): (t: Tally)
    ensures t.wins <= t.games
  {
    var blue, red := SideRows(df, Blue, c), SideRows(df, Red, c);
    Tally(|WithResult(blue, true)| + |WithResult(red, false)|, |blue| + |red|)
  }

  // ---------------------------------------------------------------------
  // Reference counts, match by match

  /** 1 when column `role` of side `team` of `w` holds `c`. */
  function Hit(w: WideRow, team: Team, role: Role, c: string): nat {
    if w.Side(team).At(role) == c then 1 else 0
  }

  /** How many of the five columns of side `team` of `w` hold `c`. */
  function Occurrences(w: WideRow, team: Team, c: string): nat {
    Hit(w, team, Top, c) + Hit(w, team, Jungle, c) + Hit(w, team, Middle, c)
      + Hit(w, team, Bottom, c) + Hit(w, team, Utility, c)
  }

  /** Appearances of `c` on side `team` over all matches. */
  function Appearances(df: seq<WideRow>, team: Team, c: string): nat {
    if df == [] then 0 else Occurrences(df[0], team, c) + Appearances(df[1..], team, c)
  }

  /** Appearances of `c` on side `team` in matches that side won. */
  function Victories(df: seq<WideRow>, team: Team, c: string): (n: nat)
    ensures n <= Appearances(df, team, c)
  {
    if df == [] then 0
    else (if df[0].Won(team) then Occurrences(df[0], team, c) else 0) + Victories(df[1..], team, c)
  }

  /** One more match adds its own hits to each column filter and to its winning part. */
  lemma ColumnRowsStep(df: seq<WideRow>, team: Team, role: Role, c: string)
    requires df != []
    ensures |ColumnRows(df, team, role, c)| == Hit(df[0], team, role, c) + |ColumnRows(df[1..], team, role, c)|
    ensures |WithResult(ColumnRows(df, team, role, c), team == Blue)| ==
      (if df[0].Won(team) then Hit(df[0], team, role, c) else 0)
        + |WithResult(ColumnRows(df[1..], team, role, c), team == Blue)|
  {
    var h := if df[0].Side(team).At(role) == c then [df[0]] else [];
    WithResultConcat(h, ColumnRows(df[1..], team, role, c), team == Blue);
  }

  lemma WithResultSide(df: seq<WideRow>, team: Team, c: string)
    ensures |WithResult(SideRows(df, team, c), team == Blue)| ==
      |WithResult(ColumnRows(df, team, Top, c), team == Blue)|
      + |WithResult(ColumnRows(df, team, Jungle, c), team == Blue)|
      + |WithResult(ColumnRows(df, team, Middle, c), team == Blue)|
      + |WithResult(ColumnRows(df, team, Bottom, c), team == Blue)|
      + |WithResult(ColumnRows(df, team, Utility, c), team == Blue)|
  {
    var b := team == Blue;
    var t, j, m, o, u :=
      ColumnRows(df, team, Top, c), ColumnRows(df, team, Jungle, c), ColumnRows(df, team, Middle, c),
      ColumnRows(df, team, Bottom, c), ColumnRows(df, team, Utility, c);
    WithResultConcat(t, j, b);
    WithResultConcat(t + j, m, b);
    WithResultConcat(t + j + m, o, b);
    WithResultConcat(t + j + m + o, u, b);
  }

  /** One more match adds its own appearances to the side's filters. */
  lemma SideLengthStep(df: seq<WideRow>, team: Team, c: string)
    requires df != []
    ensures |SideRows(df, team, c)| == Occurrences(df[0], team, c) + |SideRows(df[1..], team, c)|
  {
    ColumnRowsStep(df, team, Top, c);
    ColumnRowsStep(df, team, Jungle, c);
    ColumnRowsStep(df, team, Middle, c);
    ColumnRowsStep(df, team, Bottom, c);
    ColumnRowsStep(df, team, Utility, c);
  }

  /** One more match adds its own victories to the winning part of the side's filters. */
  lemma SideWinsStep(df: seq<WideRow>, team: Team, c: string)
    requires df != []
    ensures |WithResult(SideRows(df, team, c), team == Blue)| ==
      (if df[0].Won(team) then Occurrences(df[0], team, c) else 0)
        + |WithResult(SideRows(df[1..], team, c), team == Blue)|
  {
    WithResultSide(df, team, c);
    WithResultSide(df[1..], team, c);
    ColumnRowsStep(df, team, Top, c);
    ColumnRowsStep(df, team, Jungle, c);
    ColumnRowsStep(df, team, Middle, c);
    ColumnRowsStep(df, team, Bottom, c);
    ColumnRowsStep(df, team, Utility, c);
  }

  /** The version 1 filters of one side find each appearance once, and its wins. */
  lemma {:induction false} SideCounts(df: seq<WideRow>, team: Team, c: string)
    ensures |SideRows(df, team, c)| == Appearances(df, team, c)
    ensures |WithResult(SideRows(df, team, c), team == Blue)| == Victories(df, team, c)
  {
    if df != [] {
      SideCounts(df[1..], team, c);
      SideLengthStep(df, team, c);
      SideWinsStep(df, team, c);
    }
  }

  /** The version 1 counts are the appearances and victories of both sides. */
  lemma TallyV1Counts(df: seq<WideRow>, c: string)
    ensures TallyV1(df, c) == Tally(Victories(df, Blue, c) + Victories(df, Red, c),
                                    Appearances(df, Blue, c) + Appearances(df, Red, c))
  {
    SideCounts(df, Blue, c);
    SideCounts(df, Red, c);
  }

  /** 1 when the narrow row holds `c`. */
  function Holds(x: NarrowRow, c: string): nat {
    if x.champion == c then 1 else 0
  }

  lemma ChampionRowsFive(e: seq<NarrowRow>, c: string)
    requires |e| == 5
    ensures |ChampionRows(e, c)| == Holds(e[0], c) + Holds(e[1], c) + Holds(e[2], c) + Holds(e[3], c) + Holds(e[4], c)
  {
    var e1 := e[1..];
    var e2 := e1[1..];
    var e3 := e2[1..];
    var e4 := e3[1..];
    assert |ChampionRows(e, c)| == Holds(e[0], c) + |ChampionRows(e1, c)|;
    assert |ChampionRows(e1, c)| == Holds(e[1], c) + |ChampionRows(e2, c)|;
    assert |ChampionRows(e2, c)| == Holds(e[2], c) + |ChampionRows(e3, c)|;
    assert |ChampionRows(e3, c)| == Holds(e[3], c) + |ChampionRows(e4, c)|;
    assert |ChampionRows(e4, c)| == Holds(e[4], c) + |ChampionRows(e4[1..], c)|;
  }

  /** Rows that all share one win flag are all kept or all dropped by the win filter. */
  lemma {:induction false} WinningRowsUniform(rows: seq<NarrowRow>, win: bool)
    requires forall x :: x in rows ==> x.win == win
    ensures WinningRows(rows) == if win then rows else []
  {
    if rows != [] {
      assert rows[0] in rows;
      assert forall x :: x in rows[1..] ==> x in rows;
      WinningRowsUniform(rows[1..], win);
      assert rows == [rows[0]] + rows[1..];
    }
  }

  /** The derived rows of one side of a match hold `c` once per column that does. */
  lemma ExplodeCounts(w: WideRow, team: Team, c: string)
    ensures |ChampionRows(Explode(w, team), c)| == Occurrences(w, team, c)
    ensures |WinningRows(ChampionRows(Explode(w, team), c))| == if w.Won(team) then Occurrences(w, team, c) else 0
  {
    var e := Explode(w, team);
    ChampionRowsFive(e, c);
    assert Holds(e[Rank(Top)], c) == Hit(w, team, Top, c);
    assert Holds(e[Rank(Jungle)], c) == Hit(w, team, Jungle, c);
    assert Holds(e[Rank(Middle)], c) == Hit(w, team, Middle, c);
    assert Holds(e[Rank(Bottom)], c) == Hit(w, team, Bottom, c);
    assert Holds(e[Rank(Utility)], c) == Hit(w, team, Utility, c);
    var rows := ChampionRows(e, c);
    forall x | x in rows ensures x.win == w.Won(team) {
      ChampionRowsMembership(e, c, x);
    }
    WinningRowsUniform(rows, w.Won(team));
  }

  /** The derived rows of one side of all matches hold the side's appearances and victories. */
  lemma {:induction false} ExplodeAllCounts(df: seq<WideRow>, team: Team, c: string)
    ensures |ChampionRows(ExplodeAll(df, team), c)| == Appearances(df, team, c)
    ensures |WinningRows(ChampionRows(ExplodeAll(df, team), c))| == Victories(df, team, c)
  {
    if df != [] {
      ExplodeAllCounts(df[1..], team, c);
      ExplodeCounts(df[0], team, c);
      ChampionRowsConcat(Explode(df[0], team), ExplodeAll(df[1..], team), c);
      WinningRowsConcat(ChampionRows(Explode(df[0], team), c), ChampionRows(ExplodeAll(df[1..], team), c));
    }
  }

  /** The version 2 counts over the derived table are the appearances and victories of both sides. */
  lemma TallyV2Counts(df: seq<WideRow>, c: string)
    ensures TallyV2(Derive(df), c) == Tally(Victories(df, Blue, c) + Victories(df, Red, c),
                                            Appearances(df, Blue, c) + Appearances(df, Red, c))
  {
    var b, r := ExplodeAll(df, Blue), ExplodeAll(df, Red);
    ExplodeAllCounts(df, Blue, c);
    ExplodeAllCounts(df, Red, c);
    ChampionRowsConcat(b, r, c);
    WinningRowsConcat(ChampionRows(b, c), ChampionRows(r, c));
    TallyV2Is(b + r, c);
  }

  lemma TallyV2Is(df: seq<NarrowRow>, c: string)
    ensures TallyV2(df, c) == Tally(|WinningRows(ChampionRows(df, c))|, |ChampionRows(df, c)|)
  {
  }

  /** Version 2 ignores the order of the narrow table's rows. */
  lemma TallyV2Perm(a: seq<NarrowRow>, b: seq<NarrowRow>, c: string)
    requires multiset(a) == multiset(b)
    ensures TallyV2(a, c) == TallyV2(b, c)
  {
    var ca, cb := ChampionRows(a, c), ChampionRows(b, c);
    forall x | true
      ensures multiset(ca)[x] == multiset(cb)[x]
    {
      ChampionRowsCount(a, c, x);
      ChampionRowsCount(b, c, x);
    }
    assert multiset(ca) == multiset(cb);
    forall x | true
      ensures multiset(WinningRows(ca))[x] == multiset(WinningRows(cb))[x]
    {
      WinningRowsCount(ca, x);
      WinningRowsCount(cb, x);
    }
    assert multiset(WinningRows(ca)) == multiset(WinningRows(cb));
    assert |ca| == |multiset(ca)| && |cb| == |multiset(cb)|;
    assert |WinningRows(ca)| == |multiset(WinningRows(ca))|;
    assert |WinningRows(cb)| == |multiset(WinningRows(cb))|;
    TallyV2Is(a, c);
    TallyV2Is(b, c);
  }

  /**
   * Both query versions agree whenever the narrow table is derived from
   * the wide one, also when a champion fills two columns of a match.
   */
  lemma TalliesAgree(df: seq<WideRow>, c: string)
    ensures TallyV1(df, c) == TallyV2(Derive(df), c)
  {
    TallyV1Counts(df, c);
    TallyV2Counts(df, c);
  }

  // ---------------------------------------------------------------------
  // The reply

  /** `wins / n`, or the division by zero when there are no games. */
  function Ratio(t: Tally): (r: Reply)
    ensures r.DivisionByZero? <==> t.games == 0
    ensures r.Winrate? ==> r.winrate * (t.games as real) == t.wins as real
    ensures r.Winrate? && t.wins <= t.games ==> 0.0 <= r.winrate <= 1.0
  {
    if t.games == 0 then DivisionByZero else Winrate(t.wins as real / t.games as real)
  }

  /** `Database.Winrate`: version "v2" reads the narrow table, every other version the wide one. */
  function WinrateOf(db: Database, c: string, version: string): (r: Reply)
    ensures r.Winrate? ==> 0.0 <= r.winrate <= 1.0
    ensures version == "v2" ==> (r.DivisionByZero? <==> forall x :: x in db.narrow ==> x.champion != c)
  {
    if version == "v2" then Ratio(TallyV2(db.narrow, c)) else Ratio(TallyV1(db.wide, c))
  }

  /** No appearance of `c` on a side means no appearances counted for it. */
  lemma {:induction false} AppearancesZero(df: seq<WideRow>, team: Team, c: string)
    ensures Appearances(df, team, c) == 0 <==>
      forall i, role :: 0 <= i < |df| ==> df[i].Side(team).At(role) != c
  {
    if df != [] {
      AppearancesZero(df[1..], team, c);
      if Appearances(df, team, c) == 0 {
        forall i, role | 0 <= i < |df| ensures df[i].Side(team).At(role) != c {
          if i > 0 {
            assert df[i] == df[1..][i - 1];
          } else {
            assert Hit(df[0], team, role, c) == 0;
          }
        }
      } else if Occurrences(df[0], team, c) == 0 {
        var i, role :| 0 <= i < |df[1..]| && df[1..][i].Side(team).At(role) == c;
        assert df[i + 1] == df[1..][i];
      } else {
        var role :| Hit(df[0], team, role, c) == 1;
        assert df[0].Side(team).At(role) == c;
      }
    }
  }

  /** Version 1 divides by zero exactly when no column of any match holds `c`. */
  lemma WinrateV1Undefined(db: Database, c: string, version: string)
    requires version != "v2"
    ensures WinrateOf(db, c, version).DivisionByZero? <==>
      forall i, team, role :: 0 <= i < |db.wide| ==> db.wide[i].Side(team).At(role) != c
  {
    TallyV1Counts(db.wide, c);
    AppearancesZero(db.wide, Blue, c);
    AppearancesZero(db.wide, Red, c);
    var df := db.wide;
    if WinrateOf(db, c, version).DivisionByZero? {
      forall i, team, role | 0 <= i < |df| ensures df[i].Side(team).At(role) != c {
        if team == Red {
          assert df[i].Side(Red).At(role) != c;
        }
      }
    }
  }

  /**
   * On a narrow table holding the rows derived from the wide one, in any
   * order, every version returns the same reply.
   */
  lemma VersionsAgree(db: Database, c: string, version: string)
    requires multiset(db.narrow) == multiset(Derive(db.wide))
    ensures WinrateOf(db, c, "v2") == WinrateOf(db, c, version)
  {
    TallyV2Perm(db.narrow, Derive(db.wide), c);
    TalliesAgree(db.wide, c);
  }

  /**
   * Neither version removes duplicates: a champion in two columns of one
   * match counts as two games, in both versions.
   */
  lemma TwoColumnsCountTwice()
    ensures var w := WideRow("NA1_1", Lineup("Ahri", "Lee Sin", "Ahri", "Jinx", "Lulu"),
                             Lineup("Garen", "Vi", "Lux", "Ezreal", "Thresh"), true);
      TallyV1([w], "Ahri") == Tally(2, 2) && TallyV2(Derive([w]), "Ahri") == Tally(2, 2)
  {
    var w := WideRow("NA1_1", Lineup("Ahri", "Lee Sin", "Ahri", "Jinx", "Lulu"),
                     Lineup("Garen", "Vi", "Lux", "Ezreal", "Thresh"), true);
    var c := "Ahri";
    BlueOccurrences(w, c);
    RedOccurrences(w, c);
    OneMatch(w, c);
    TalliesAgree([w], c);
  }

  lemma BlueOccurrences(w: WideRow, c: string)
    requires w.blue == Lineup("Ahri", "Lee Sin", "Ahri", "Jinx", "Lulu") && c == "Ahri"
    ensures Occurrences(w, Blue, c) == 2
  {
    var l := w.blue;
    assert l.top == c && l.middle == c;
    assert l.jungle != c by { assert l.jungle[0] != c[0]; }
    assert l.bottom != c by { assert l.bottom[0] != c[0]; }
    assert l.utility != c by { assert l.utility[0] != c[0]; }
  }

  lemma RedOccurrences(w: WideRow, c: string)
    requires w.red == Lineup("Garen", "Vi", "Lux", "Ezreal", "Thresh") && c == "Ahri"
    ensures Occurrences(w, Red, c) == 0
  {
    var l := w.red;
    assert l.top != c by { assert l.top[0] != c[0]; }
    assert l.jungle != c by { assert l.jungle[0] != c[0]; }
    assert l.middle != c by { assert l.middle[0] != c[0]; }
    assert l.bottom != c by { assert l.bottom[0] != c[0]; }
    assert l.utility != c by { assert l.utility[0] != c[0]; }
  }

  /** On a table of one match both versions count that match's columns. */
  lemma OneMatch(w: WideRow, c: string)
    ensures TallyV1([w], c) == Tally((if w.blueWin then Occurrences(w, Blue, c) else Occurrences(w, Red, c)),
                                     Occurrences(w, Blue, c) + Occurrences(w, Red, c))
  {
    assert [w][1..] == [];
    TallyV1Counts([w], c);
  }
}
