/**
 * Deriving the narrow table from the wide table (`create_df_v2`).
 *
 * Each wide row becomes five blue rows carrying `blue_win` and five red
 * rows carrying its negation; the blue rows of all matches come first,
 * then the red rows (`blue_v2.union(red_v2)`).
 */
module Derivation {
  import opened Schema

  /** The five rows of one side of a match, one per champion column, in column order. */
  function Explode(w: WideRow, team: Team): (r: seq<NarrowRow>)
    ensures |r| == 5
    ensures forall role :: r[Rank(role)] == NarrowRow(w.matchId, team, w.Side(team).At(role), w.Won(team))
    ensures forall x :: x in r ==> x.matchId == w.matchId && x.team == team
    ensures forall x :: x in r ==> x.win == (if team == Blue then w.blueWin else !w.blueWin)
  {
    var l, win := w.Side(team), w.Won(team);
    [NarrowRow(w.matchId, team, l.top, win),
     NarrowRow(w.matchId, team, l.jungle, win),
     NarrowRow(w.matchId, team, l.middle, win),
     NarrowRow(w.matchId, team, l.bottom, win),
     NarrowRow(w.matchId, team, l.utility, win)]
  }

  /** The rows of one side of every match, match by match. */
  function ExplodeAll(df: seq<WideRow>, team: Team): (r: seq<NarrowRow>)
    ensures |r| == 5 * |df|
  {
    if df == [] then [] else Explode(df[0], team) + ExplodeAll(df[1..], team)
  }

  /** The narrow table: all blue rows, then all red rows. */
  function Derive(df: seq<WideRow>): (r: seq<NarrowRow>)
    ensures |r| == 10 * |df|
  {
    ExplodeAll(df, Blue) + ExplodeAll(df, Red)
  }

  lemma {:induction false} ExplodeAllConcat(a: seq<WideRow>, b: seq<WideRow>, team: Team)
    ensures ExplodeAll(a + b, team) == ExplodeAll(a, team) + ExplodeAll(b, team)
  {
    if a == [] {
      assert a + b == b;
    } else {
      assert (a + b)[0] == a[0];
      assert (a + b)[1..] == a[1..] + b;
      ExplodeAllConcat(a[1..], b, team);
      assert Explode(a[0], team) + (ExplodeAll(a[1..], team) + ExplodeAll(b, team))
          == (Explode(a[0], team) + ExplodeAll(a[1..], team)) + ExplodeAll(b, team);
    }
  }

  /** A row belongs to a side's five rows exactly when it is one of that side's columns. */
  lemma ExplodeMembership(w: WideRow, team: Team, x: NarrowRow)
    ensures x in Explode(w, team) <==>
      exists role :: x == NarrowRow(w.matchId, team, w.Side(team).At(role), w.Won(team))
  {
    var r := Explode(w, team);
    if x in r {
      var j :| 0 <= j < 5 && r[j] == x;
      assert Rank(RoleAt(j)) == j;
    }
  }

  /** Column `role` of side `x.team` of match `i` yields `x`. */
  predicate ComesFrom(df: seq<WideRow>, x: NarrowRow, i: int, role: Role) {
    0 <= i < |df| && x == NarrowRow(df[i].matchId, x.team, df[i].Side(x.team).At(role), df[i].Won(x.team))
  }

  lemma {:induction false} ExplodeAllMembership(df: seq<WideRow>, team: Team, x: NarrowRow)
    ensures x in ExplodeAll(df, team) <==> x.team == team && exists i, role :: ComesFrom(df, x, i, role)
  {
    if df != [] {
      var rest := df[1..];
      ExplodeMembership(df[0], team, x);
      ExplodeAllMembership(rest, team, x);
      if x in ExplodeAll(df, team) {
        if x in Explode(df[0], team) {
          var role :| x == NarrowRow(df[0].matchId, team, df[0].Side(team).At(role), df[0].Won(team));
          assert ComesFrom(df, x, 0, role);
        } else {
          var i, role :| ComesFrom(rest, x, i, role);
          assert ComesFrom(df, x, i + 1, role);
        }
      }
      if x.team == team && exists i, role :: ComesFrom(df, x, i, role) {
        var i, role :| ComesFrom(df, x, i, role);
        if i > 0 {
          assert ComesFrom(rest, x, i - 1, role);
        }
      }
    }
  }

  /**
   * A narrow row is derived exactly when some match has its champion in
   * some column of its side, with the same match id and that side's result.
   */
  lemma DeriveMembership(df: seq<WideRow>, x: NarrowRow)
    ensures x in Derive(df) <==> exists i, role :: ComesFrom(df, x, i, role)
  {
    ExplodeAllMembership(df, Blue, x);
    ExplodeAllMembership(df, Red, x);
  }

  /** Deriving distributes over appending matches: the narrow table grows by the new matches' rows. */
  lemma DeriveConcat(a: seq<WideRow>, b: seq<WideRow>)
    ensures multiset(Derive(a + b)) == multiset(Derive(a)) + multiset(Derive(b))
  {
    ExplodeAllConcat(a, b, Blue);
    ExplodeAllConcat(a, b, Red);
  }
}
