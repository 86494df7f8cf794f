/** What a whole run of attachments, src/attaching.rs, leaves for the digits of the popup it opens. */
module PopupRuns {
  import opened AttachLoop
  import opened Cycles
  import opened Groups
  import opened Lists
  import Popup
  import opened PopupTree
  import opened Sessions
  import Snapshots
  import opened Wrappers

  /**
    However long a run has gone on, as long as every session it started was new and
    every name given was free, the popup of its next landing numbers its rows from
    one without a gap.
   */
  lemma FreshRunsLeaveNoGap(at: Located, turns: seq<Turn>, t: Turn, p: Snapshots.Picture, g: Table, focus: Option<string>)
    requires FreshRun(Begin(at), turns) && Run(Begin(at), turns).Again?
    requires t.attempt.Lands? && IsFresh(Run(Begin(at), turns).s, t)
    requires Distinct(Map(Addressed(), Snapshots.Known(p)))
    ensures var recent := Recent(Landed(Run(Begin(at), turns).s, t).cycle);
            forall digit | 1 <= digit <= |Counted(p, g, focus, recent)| :: IsWorn(p, g, focus, recent, digit)
  {
    hide Run, Landed, Counted, IsWorn, IsFresh, FreshRun, Distinct;
    TrailStaysDistinct(at, turns);
    var recent := Recent(Landed(Run(Begin(at), turns).s, t).cycle);
    CountedAreOnTheTrail(p, g, focus, recent);
    DigitsLeaveNoGap(p, g, focus, recent);
  }

  lemma CountedAreOnTheTrail(p: Snapshots.Picture, g: Table, focus: Option<string>, recent: seq<Located>)
    requires recent != [] && Distinct(recent)
    ensures Distinct(Counted(p, g, focus, recent))
  {
    var keep := IsDrawn(Popup.LinesFor(p, g, focus, recent[0]));
    var same := (x: Located) => x;
    var trail := Filter(keep, recent);
    assert Map(same, recent) == recent && Map(same, trail) == trail;
    FilterOfDistinct(same, keep, recent);
  }

  /**
    And a run that gives a session the name another on its trail had loses one: in
    whatever listing, the digit 1 is on no row, and the session it is in wears 2.
   */
  lemma RenameLosesADigit(at: Located, other: Located, p: Snapshots.Picture, g: Table, focus: Option<string>)
    requires other.host == at.host && other != at && Distinct(Map(Addressed(), Snapshots.Known(p)))
    ensures Run(Begin(at), TurnsThatRepeat(at, other)).Again?
    ensures var recent := Recent(Run(Begin(at), TurnsThatRepeat(at, other)).s.cycle);
            !IsWorn(p, g, focus, recent, 1) && IsWorn(p, g, focus, recent, 2)
  {
    RenameRepeatsTheTrail(at, other);
    hide Run, IsWorn, Counted, Snapshots.Known;
    var recent := [at, at];
    CountedTwice(p, g, focus, at);
    DigitIsWornExactlyWhen(p, g, focus, recent, 1);
    DigitIsWornExactlyWhen(p, g, focus, recent, 2);
    assert [at, at][1..] == [at] && [at, at][2..] == [];
  }

  lemma CountedTwice(p: Snapshots.Picture, g: Table, focus: Option<string>, at: Located)
    ensures Counted(p, g, focus, [at, at]) == [at, at]
  {
    hide Popup.LinesFor;
    CurrentIsShown(p, g, focus, at);
    KeptTwice(IsDrawn(Popup.LinesFor(p, g, focus, at)), at);
  }

  lemma KeptTwice(keep: Located -> bool, at: Located)
    requires keep(at)
    ensures Filter(keep, [at, at]) == [at, at]
  {
    assert [at, at][1..] == [at] && [at][1..] == [];
    assert Filter(keep, [at]) == [at];
  }
}
