/**
 * Turning one match record of the match API into a row of the wide table
 * (`extract_and_write`).
 *
 * A match qualifies when it ended normally and was played in the ranked
 * solo queue. Every participant must report one of the five positions,
 * otherwise the whole match is discarded. Participants of team 100 form
 * the blue side and everybody else the red side; each side is ordered by
 * position and its champions become five columns. The blue side's result
 * is read from the `win` flag of the last blue participant seen.
 */
module Extraction {
  import opened Seqs
  import opened Schema
  import opened PositionSort

  /** The `queueId` of ranked solo/duo games. */
  const RankedSoloQueue: int := 420
  /** The `teamId` of the blue side. */
  const BlueTeamId: int := 100
  /** The `endOfGameResult` of a game that was played to the end. */
  const GameComplete: string := "GameComplete"

  /** The fields of a participant record that the extraction reads. */
  datatype Participant = Participant(championName: string, teamPosition: string, teamId: int, win: bool)

  /** The fields of a match record that the extraction reads. */
  datatype Match = Match(matchId: string, endOfGameResult: string, queueId: int, participants: seq<Participant>)

  /** The position name the match API reports for a role. */
  function RoleName(role: Role): string {
    match role
    case Top => "TOP"
    case Jungle => "JUNGLE"
    case Middle => "MIDDLE"
    case Bottom => "BOTTOM"
    case Utility => "UTILITY"
  }

  /**
   * Looks a reported position up in the position table; None is the
   * KeyError of an unknown position (an AFK player reports "").
   */
  function PositionOf(name: string): (r: Option<Role>)
    ensures r.Some? ==> RoleName(r.value) == name
    ensures forall role :: RoleName(role) == name ==> r == Some(role)
  {
    if name == "TOP" then Some(Top)
    else if name == "JUNGLE" then Some(Jungle)
    else if name == "MIDDLE" then Some(Middle)
    else if name == "BOTTOM" then Some(Bottom)
    else if name == "UTILITY" then Some(Utility)
    else None
  }

  /** Team 100 is blue; every other team id counts as red. */
  function TeamOf(p: Participant): (t: Team)
    ensures t == Blue <==> p.teamId == BlueTeamId
  {
    if p.teamId == BlueTeamId then Blue else Red
  }

  predicate Eligible(m: Match) {
    m.endOfGameResult == GameComplete && m.queueId == RankedSoloQueue
  }

  predicate Positioned(p: Participant) {
    PositionOf(p.teamPosition).Some?
  }

  predicate AllPositioned(ps: seq<Participant>) {
    forall i :: 0 <= i < |ps| ==> Positioned(ps[i])
  }

  function SlotOf(p: Participant): Slot
    requires Positioned(p)
  {
    Slot(p.championName, PositionOf(p.teamPosition).value)
  }

  /** The slots of the participants on `team`, in the order of the participant list. */
  function TeamSlots(ps: seq<Participant>, team: Team): (r: seq<Slot>)
    requires AllPositioned(ps)
    ensures |r| <= |ps|
  {
    if ps == [] then []
    else (if TeamOf(ps[0]) == team then [SlotOf(ps[0])] else []) + TeamSlots(ps[1..], team)
  }

  /** Every participant lands on exactly one side. */
  lemma {:induction false} TeamSlotsCover(ps: seq<Participant>)
    requires AllPositioned(ps)
    ensures |TeamSlots(ps, Blue)| + |TeamSlots(ps, Red)| == |ps|
  {
    if ps != [] {
      TeamSlotsCover(ps[1..]);
    }
  }

  /** A participant's slot is on its own side. */
  lemma {:induction false} TeamSlotsHas(ps: seq<Participant>, p: Participant)
    requires AllPositioned(ps)
    requires p in ps
    ensures Positioned(p)
    ensures SlotOf(p) in TeamSlots(ps, TeamOf(p))
  {
    if p != ps[0] {
      TeamSlotsHas(ps[1..], p);
    }
  }

  /** The `win` flag of the last blue participant, or None when there is none. */
  function LastBlueWin(ps: seq<Participant>): (r: Option<bool>)
    ensures r.None? <==> forall i :: 0 <= i < |ps| ==> TeamOf(ps[i]) != Blue
  {
    if ps == [] then None
    else if TeamOf(ps[|ps| - 1]) == Blue then Some(ps[|ps| - 1].win)
    else
      var r := LastBlueWin(ps[..|ps| - 1]);
      assert forall i :: 0 <= i < |ps| - 1 ==> ps[..|ps| - 1][i] == ps[i];
      r
  }

  /** Seen from the front: a later blue participant overrides an earlier one. */
  lemma {:induction false} LastBlueWinCons(p: Participant, rest: seq<Participant>)
    ensures LastBlueWin([p] + rest) ==
      if LastBlueWin(rest).Some? then LastBlueWin(rest)
      else if TeamOf(p) == Blue then Some(p.win)
      else None
    decreases |rest|
  {
    var ps := [p] + rest;
    if rest == [] {
      assert ps[..|ps| - 1] == [];
    } else {
      assert ps[|ps| - 1] == rest[|rest| - 1];
      assert ps[..|ps| - 1] == [p] + rest[..|rest| - 1];
      LastBlueWinCons(p, rest[..|rest| - 1]);
    }
  }

  /** The two lists and the `blue_win` variable the participant loop builds. */
  datatype Sides = Sides(blue: seq<Slot>, red: seq<Slot>, blueWin: Option<bool>)

  /**
   * The participant loop from state `acc`: None when a participant reports
   * an unknown position, which discards the match at once.
   */
  function Scan(ps: seq<Participant>, acc: Sides): Option<Sides> {
    if ps == [] then Some(acc)
    else
      var p := ps[0];
      match PositionOf(p.teamPosition)
      case None => None
      case Some(role) =>
        var slot := Slot(p.championName, role);
        if TeamOf(p) == Blue then Scan(ps[1..], Sides(acc.blue + [slot], acc.red, Some(p.win)))
        else Scan(ps[1..], Sides(acc.blue, acc.red + [slot], acc.blueWin))
  }

  lemma AllPositionedCons(ps: seq<Participant>)
    requires ps != []
    ensures AllPositioned(ps) <==> Positioned(ps[0]) && AllPositioned(ps[1..])
  {
    if Positioned(ps[0]) && AllPositioned(ps[1..]) {
      forall i | 0 <= i < |ps| ensures Positioned(ps[i]) {
        if i > 0 {
          assert ps[i] == ps[1..][i - 1];
        }
      }
    }
  }

  /** The loop discards the match exactly when some participant reports an unknown position. */
  lemma {:induction false} ScanRejects(ps: seq<Participant>, acc: Sides)
    ensures Scan(ps, acc).None? <==> !AllPositioned(ps)
  {
    if ps != [] {
      AllPositionedCons(ps);
      var p := ps[0];
      if Positioned(p) {
        var slot := SlotOf(p);
        ScanRejects(ps[1..], Sides(acc.blue + [slot], acc.red, Some(p.win)));
        ScanRejects(ps[1..], Sides(acc.blue, acc.red + [slot], acc.blueWin));
      }
    }
  }

  /** How `TeamSlots` sees the first participant. */
  lemma FirstSlots(ps: seq<Participant>, team: Team)
    requires ps != [] && AllPositioned(ps)
    ensures Positioned(ps[0]) && AllPositioned(ps[1..])
    ensures TeamSlots(ps, team) == (if TeamOf(ps[0]) == team then [SlotOf(ps[0])] else []) + TeamSlots(ps[1..], team)
  {
    AllPositionedCons(ps);
  }

  /** How `LastBlueWin` sees the first participant. */
  lemma FirstWin(ps: seq<Participant>)
    requires ps != []
    ensures LastBlueWin(ps) ==
      if LastBlueWin(ps[1..]).Some? then LastBlueWin(ps[1..])
      else if TeamOf(ps[0]) == Blue then Some(ps[0].win)
      else None
  {
    assert ps == [ps[0]] + ps[1..];
    LastBlueWinCons(ps[0], ps[1..]);
  }

  /**
   * Otherwise the loop appends each side's slots in participant order and
   * leaves `blue_win` at the flag of the last blue participant, or where it
   * was when no participant is blue.
   */
  lemma {:induction false} ScanResult(ps: seq<Participant>, acc: Sides)
    requires AllPositioned(ps)
    ensures Scan(ps, acc) == Some(Sides(
      acc.blue + TeamSlots(ps, Blue),
      acc.red + TeamSlots(ps, Red),
      if LastBlueWin(ps).Some? then LastBlueWin(ps) else acc.blueWin))
  {
    if ps == [] {
      assert acc.blue + [] == acc.blue && acc.red + [] == acc.red;
    } else {
      AdvanceSlots(ps, acc);
      AdvanceWin(ps, acc);
      ScanUnfold(ps, acc);
      ScanResult(ps[1..], Advance(acc, ps[0]));
    }
  }

  /** The loop state after one positioned participant. */
  function Advance(acc: Sides, p: Participant): Sides
    requires Positioned(p)
  {
    if TeamOf(p) == Blue then Sides(acc.blue + [SlotOf(p)], acc.red, Some(p.win))
    else Sides(acc.blue, acc.red + [SlotOf(p)], acc.blueWin)
  }

  /** The loop takes one step on a positioned participant. */
  lemma ScanUnfold(ps: seq<Participant>, acc: Sides)
    requires ps != [] && Positioned(ps[0])
    ensures Scan(ps, acc) == Scan(ps[1..], Advance(acc, ps[0]))
  {
  }

  /** One loop step extends the side lists the way `TeamSlots` grows. */
  lemma AdvanceSlots(ps: seq<Participant>, acc: Sides)
    requires ps != [] && AllPositioned(ps)
    ensures Positioned(ps[0])
    ensures Advance(acc, ps[0]).blue + TeamSlots(ps[1..], Blue) == acc.blue + TeamSlots(ps, Blue)
    ensures Advance(acc, ps[0]).red + TeamSlots(ps[1..], Red) == acc.red + TeamSlots(ps, Red)
  {
    var p, rest := ps[0], ps[1..];
    FirstSlots(ps, Blue);
    FirstSlots(ps, Red);
    if TeamOf(p) == Blue {
      assert (acc.blue + [SlotOf(p)]) + TeamSlots(rest, Blue) == acc.blue + ([SlotOf(p)] + TeamSlots(rest, Blue));
      assert [] + TeamSlots(rest, Red) == TeamSlots(rest, Red);
    } else {
      assert (acc.red + [SlotOf(p)]) + TeamSlots(rest, Red) == acc.red + ([SlotOf(p)] + TeamSlots(rest, Red));
      assert [] + TeamSlots(rest, Blue) == TeamSlots(rest, Blue);
    }
  }

  /** One loop step updates `blue_win` the way `LastBlueWin` reads it. */
  lemma AdvanceWin(ps: seq<Participant>, acc: Sides)
    requires ps != [] && Positioned(ps[0])
    ensures (if LastBlueWin(ps[1..]).Some? then LastBlueWin(ps[1..]) else Advance(acc, ps[0]).blueWin)
         == (if LastBlueWin(ps).Some? then LastBlueWin(ps) else acc.blueWin)
  {
    FirstWin(ps);
  }

  /** The champion names of a side in slot order (`[e[0] for e in ...]`). */
  function ChampionNames(slots: seq<Slot>): (r: seq<string>)
    ensures |r| == |slots|
    ensures forall i :: 0 <= i < |slots| ==> r[i] == slots[i].champion
  {
    seq(|slots|, i requires 0 <= i < |slots| => slots[i].champion)
  }

  /**
   * What `extract_and_write` yields for a match: `(False, None)`, a row
   * list, or the UnboundLocalError raised when no participant is blue.
   */
  datatype Extraction = Skipped | Extracted(row: seq<Cell>) | UnboundBlueWin

  /** The row list `[m_id] + blue_champs + red_champs + [blue_win]` of the sorted sides. */
  function RowOf(matchId: string, blue: seq<Slot>, red: seq<Slot>, blueWin: bool): seq<Cell> {
    [Text(matchId)] + Texts(ChampionNames(Sort(blue))) + Texts(ChampionNames(Sort(red))) + [Flag(blueWin)]
  }

  function Extract(m: Match): (r: Extraction)
    ensures !Eligible(m) ==> r == Skipped
    ensures Eligible(m) ==> (r == Skipped <==> !AllPositioned(m.participants))
    ensures r == UnboundBlueWin <==>
      Eligible(m) && AllPositioned(m.participants) && LastBlueWin(m.participants).None?
    ensures r.Extracted? ==>
      && Eligible(m) && AllPositioned(m.participants)
      && LastBlueWin(m.participants).Some?
      && r.row == RowOf(m.matchId, TeamSlots(m.participants, Blue), TeamSlots(m.participants, Red),
                        LastBlueWin(m.participants).value)
  {
    if Eligible(m) then
      ScanRejects(m.participants, Sides([], [], None));
      match Scan(m.participants, Sides([], [], None))
      case None => Skipped
      case Some(sides) =>
        ScanResult(m.participants, Sides([], [], None));
        assert [] + TeamSlots(m.participants, Blue) == TeamSlots(m.participants, Blue);
        assert [] + TeamSlots(m.participants, Red) == TeamSlots(m.participants, Red);
        if sides.blueWin.None? then UnboundBlueWin
        else Extracted(RowOf(m.matchId, sides.blue, sides.red, sides.blueWin.value))
    else Skipped
  }

  /** An extracted row has one cell per participant plus the match id and the result. */
  lemma ExtractRowLength(m: Match)
    requires Extract(m).Extracted?
    ensures |Extract(m).row| == |m.participants| + 2
  {
    TeamSlotsCover(m.participants);
  }

  /** The five champion columns of a side of five slots. */
  function LineupOf(slots: seq<Slot>): (l: Lineup)
    requires |slots| == 5
    ensures l.Champions() == ChampionNames(slots)
  {
    Lineup(slots[0].champion, slots[1].champion, slots[2].champion, slots[3].champion, slots[4].champion)
  }

  /** With five players a side, the row list is the flat form of a wide row. */
  lemma RowOfFlatten(matchId: string, blue: seq<Slot>, red: seq<Slot>, blueWin: bool)
    requires |blue| == 5 && |red| == 5
    ensures RowOf(matchId, blue, red, blueWin) ==
      Flatten(WideRow(matchId, LineupOf(Sort(blue)), LineupOf(Sort(red)), blueWin))
  {
  }

  /** A row list `[id] + a + b + [flag]` has text cells, then the flag last. */
  lemma CellsShape(matchId: string, a: seq<string>, b: seq<string>, blueWin: bool)
    ensures |[Text(matchId)] + Texts(a) + Texts(b) + [Flag(blueWin)]| == |a| + |b| + 2
    ensures forall i :: 0 <= i < |a| + |b| + 1 ==> ([Text(matchId)] + Texts(a) + Texts(b) + [Flag(blueWin)])[i].Text?
    ensures ([Text(matchId)] + Texts(a) + Texts(b) + [Flag(blueWin)])[|a| + |b| + 1] == Flag(blueWin)
  {
    var row := [Text(matchId)] + Texts(a) + Texts(b) + [Flag(blueWin)];
    forall i | 0 <= i < |a| + |b| + 1 ensures row[i].Text? {
      if 1 <= i <= |a| {
        assert row[i] == Texts(a)[i - 1];
      } else if |a| < i {
        assert row[i] == Texts(b)[i - 1 - |a|];
      }
    }
  }

  /**
   * The version 1 schema accepts an extracted row exactly when the match
   * has ten participants, however they are split between the sides.
   */
  lemma ExtractFitsExactlyTen(m: Match)
    requires Extract(m).Extracted?
    ensures FitsSchema(Extract(m).row) <==> |m.participants| == 10
  {
    var ps := m.participants;
    TeamSlotsCover(ps);
    var a := ChampionNames(Sort(TeamSlots(ps, Blue)));
    var b := ChampionNames(Sort(TeamSlots(ps, Red)));
    CellsShape(m.matchId, a, b, LastBlueWin(ps).value);
  }

  /**
   * A row extracted from a match with five players a side fits the
   * version 1 schema, and loads as the wide row whose columns are the
   * sorted sides.
   */
  lemma ExtractFitsSchema(m: Match)
    requires Extract(m).Extracted?
    requires |TeamSlots(m.participants, Blue)| == 5
    requires |TeamSlots(m.participants, Red)| == 5
    ensures FitsSchema(Extract(m).row)
    ensures FromCells(Extract(m).row) == Some(WideRow(m.matchId,
      LineupOf(Sort(TeamSlots(m.participants, Blue))),
      LineupOf(Sort(TeamSlots(m.participants, Red))),
      LastBlueWin(m.participants).value))
  {
    var ps := m.participants;
    RowOfFlatten(m.matchId, TeamSlots(ps, Blue), TeamSlots(ps, Red), LastBlueWin(ps).value);
    FlattenRoundTrip(WideRow(m.matchId, LineupOf(Sort(TeamSlots(ps, Blue))),
      LineupOf(Sort(TeamSlots(ps, Red))), LastBlueWin(ps).value));
  }

  /**
   * Once loaded, the extracted row puts every participant's champion in
   * the column of its side and position.
   */
  lemma ColumnsFollowPositions(m: Match, p: Participant)
    requires Extract(m).Extracted?
    requires OnePerRole(TeamSlots(m.participants, Blue))
    requires OnePerRole(TeamSlots(m.participants, Red))
    requires p in m.participants
    ensures FromCells(Extract(m).row).Some?
    ensures Positioned(p)
    ensures FromCells(Extract(m).row).value.Side(TeamOf(p)).At(PositionOf(p.teamPosition).value) == p.championName
  {
    var ps := m.participants;
    SortAt(TeamSlots(ps, Blue), 0);
    SortAt(TeamSlots(ps, Red), 0);
    ExtractFitsSchema(m);
    TeamSlotsHas(ps, p);
    var side := TeamSlots(ps, TeamOf(p));
    SortPlacesEachRole(side);
    var role := PositionOf(p.teamPosition).value;
    assert Sort(side)[Rank(role)] == SlotOf(p);
    assert LineupOf(Sort(side)).At(role) == ChampionNames(Sort(side))[Rank(role)];
  }
}
