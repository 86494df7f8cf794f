/** What each turn of the loop does to where the run is, over src/attaching.rs:104-703 and said of places alone. */
module Gestures {
  import opened AttachLoop
  import opened CycleLaws
  import opened Cycles
  import opened Lists
  import opened Sessions
  import opened Wrappers

  // ----- What a turn meets before its session runs -----

  /** News is taken in turn: a listing as it is, a rename of any session but the current one. */
  lemma NewsIsTaken(c: Place, news: seq<News>, last: News)
    ensures Told(c, []) == c
    ensures var was, now := Told(c, news), Told(c, news + [last]);
            match last
            case Relisted(sessions) => IsRefresh(was, now, sessions)
            case Rename(at, name) => if at == was.current then now == was else IsRename(was, now, at, name)
  {
    hide Refreshed, RenamedAt, IsRefresh, IsRename;
    assert (news + [last])[..|news|] == news;
    match last
    case Relisted(sessions) => RefreshingRefreshes(Told(c, news), sessions);
    case Rename(at, name) => RenamingRenames(Told(c, news), at, name);
  }

  /** The session itself is found under another name, or is not. */
  ghost predicate IsRenamedTo(was: Place, now: Place, name: Option<string>) {
    match name
    case None => now == was
    case Some(n) => IsRename(was, now, was.current, n)
  }

  lemma RenamedIs(c: Place, name: Option<string>)
    ensures IsRenamedTo(c, Renamed(c, name), name)
  {
    hide RenamedAt, IsRename;
    if name.Some? { RenamingRenames(c, c.current, name.value); }
  }

  /** Where the run is when its session comes back. */
  function Came(s: Loop, t: Turn): Place
    requires t.attempt.Lands?
  {
    Renamed(Told(Landed(s, t).cycle, t.attempt.before), t.attempt.renamed)
  }

  /** And the session it was, by the name it has by then. */
  function Where(s: Loop, t: Turn): Located
    requires t.attempt.Lands?
  {
    match t.attempt.renamed
    case Some(name) => Located(Ready(s, t).current.host, name)
    case None => Ready(s, t).current
  }

  /**
    An attempt is made on the session the run is in once the news is taken; one that
    works takes what news there is by then, and the first of a run narrows to the
    group it is told.
   */
  lemma LandingIs(s: Loop, t: Turn)
    requires t.attempt.Lands?
    ensures IsRenamedTo(Told(s.cycle, t.news), Ready(s, t), t.recovered)
    ensures var told, now := Told(Ready(s, t), t.attempt.news), Landed(s, t);
            && now.cycle.sessions == told.sessions && now.cycle.current == told.current && now.cycle.trail == told.trail
            && (!s.attached && t.attempt.group.Some? ==> now.cycle.focus == t.attempt.group.value)
            && (s.attached || t.attempt.group.None? ==> now.cycle.focus == told.focus)
            && now == Loop(now.cycle, true, false, None, None, s.mode)
    ensures IsRenamedTo(Told(Landed(s, t).cycle, t.attempt.before), Came(s, t), t.attempt.renamed)
  {
    hide Told, Renamed, IsRenamedTo;
    RenamedIs(Told(s.cycle, t.news), t.recovered);
    RenamedIs(Told(Landed(s, t).cycle, t.attempt.before), t.attempt.renamed);
  }

  // ----- What comes of it -----

  predicate CameBack(t: Turn, out: Outcome) {
    t.attempt.Lands? && t.attempt.ran == Some(out)
  }

  /** The run goes on in some place, with nothing carried over from before. */
  ghost predicate GoesOn(after: Next, cycle: Place, hopped: bool, mode: Mode) {
    after == Again(Loop(cycle, true, hopped, None, None, mode))
  }

  /** It has gone somewhere, and is narrowed to this. */
  ghost predicate Goes(was: Place, after: Next, next: Located, focus: Option<string>, mode: Mode) {
    && after.Again? && GoesOn(after, after.s.cycle, true, mode)
    && IsMove(was, after.s.cycle, next) && after.s.cycle.focus == focus
  }

  lemma TakenIsRan(s: Loop, t: Turn, out: Outcome)
    requires CameBack(t, out)
    ensures Take(s, t) == Ran(Loop(Came(s, t), true, false, None, None, s.mode), Where(s, t), out)
  {
    hide Told, Renamed, Ran;
  }

  /**
    A session chosen is gone to, wherever it is, and the keyboard with it; choosing
    the one the run is in, or one that is not there any more, moves nothing.
   */
  lemma GoGoes(s: Loop, t: Turn, there: Option<Located>)
    requires CameBack(t, Chose(Go(there)))
    ensures var was, after := Came(s, t), Take(s, t);
            if there.Some? && there.value != was.current then Goes(was, after, there.value, was.focus, Focused)
            else GoesOn(after, was, false, Focused)
  {
    hide Take, Came, MovedTo, IsMove;
    TakenIsRan(s, t, Chose(Go(there)));
    if there.Some? { MovingMoves(Came(s, t), there.value); }
  }

  /** So leaving right after leaves the session chosen. */
  lemma GoThenLeave(s: Loop, t: Turn, there: Located)
    requires CameBack(t, Chose(Go(Some(there))))
    ensures Run(s, [t, Turn([], None, Lands([], None, [], None, Some(Detached)))]) == Stop(Left(there))
  {
    var leave := Turn([], None, Lands([], None, [], None, Some(Detached)));
    var turns := [t, leave];
    assert turns[..1] == [t] && turns[..1][..0] == [];
    GoGoes(s, t, Some(there));
    assert Run(s, turns[..1]) == Take(s, t);
    hide Take, IsMove;
    LeavingLeaves(Take(s, t).s);
  }

  lemma LeavingLeaves(s: Loop)
    ensures Take(s, Turn([], None, Lands([], None, [], None, Some(Detached)))) == Stop(Left(s.cycle.current))
  {
  }

  /** A switch key takes its news and goes where its motion leads, or nowhere if that is nowhere. */
  lemma SwitchGoes(s: Loop, t: Turn, news: seq<News>, motion: Motion)
    requires CameBack(t, Switch(news, motion))
    ensures var was, after := Told(Came(s, t), news), Take(s, t);
            match Step(was, motion)
            case Some(next) => Goes(was, after, next, was.focus, Control)
            case None => GoesOn(after, was, false, Control)
  {
    hide Take, Came, MovedTo, IsMove, Step, Told;
    TakenIsRan(s, t, Switch(news, motion));
    var was := Told(Came(s, t), news);
    if Step(was, motion).Some? { MovingMoves(was, Step(was, motion).value); }
  }

  /** Whether a session is listed inside a narrowing. */
  ghost predicate IsIn(c: Place, group: Option<string>, at: Located) {
    exists entry :: entry in c.sessions && entry.at == at && (group == None || entry.group == group)
  }

  lemma HoldsIsIn(c: Place, at: Located)
    ensures Holds(c, at) <==> IsIn(c, c.focus, at)
  {
    var visible := Visible(c);
    FilterKeeps(InFocus(c.focus), c.sessions);
    if Holds(c, at) { assert visible[PositionAt(visible, at).value] in visible; }
    if IsIn(c, c.focus, at) {
      var entry :| entry in c.sessions && entry.at == at && (c.focus == None || entry.group == c.focus);
      assert entry in visible;
      var k :| 0 <= k < |visible| && visible[k] == entry;
    }
  }

  /**
    Narrowing to a group, or widening, moves nobody who is listed inside it already;
    whoever is not goes to the first session there is to walk in it, and stays where
    there is none.
   */
  lemma NarrowNarrows(s: Loop, t: Turn, group: Option<string>, j: nat)
    requires CameBack(t, Chose(Narrow(Some(group))))
    ensures var was, after := Came(s, t).(focus := group), Take(s, t);
            && (IsIn(was, group, was.current) || (forall k :: !WalkedAt(was, k)) ==> GoesOn(after, was, false, Control))
            && (!IsIn(was, group, was.current) && WalkedAt(was, j) && (forall k | k < j :: !WalkedAt(was, k)) ==>
                  Goes(was, after, was.sessions[j].at, group, Control))
  {
    hide Take, Came, MovedTo, IsMove, Step, WalkedAt;
    TakenIsRan(s, t, Chose(Narrow(Some(group))));
    var was := Came(s, t).(focus := group);
    HoldsIsIn(was, was.current);
    if !IsIn(was, group, was.current) {
      OutsideIsNotWalked(was, group);
      TabFromOutside(was, j);
      if Step(was, Cycles.Next).Some? { MovingMoves(was, Step(was, Cycles.Next).value); }
    }
  }

  /**
    So it moves exactly whoever is not listed inside, where there is anybody to walk:
    even widening does, from a session no listing has yet.
   */
  lemma NarrowMovesExactlyWhen(s: Loop, t: Turn, group: Option<string>)
    requires CameBack(t, Chose(Narrow(Some(group))))
    ensures var was, after := Came(s, t).(focus := group), Take(s, t);
            && after.Again? && after.s.cycle.focus == group
            && (after.s.hopped <==> !IsIn(was, group, was.current) && exists k :: WalkedAt(was, k))
            && (after.s.cycle.current == was.current <==> !after.s.hopped)
  {
    hide Take, Came, IsMove, WalkedAt;
    var was := Came(s, t).(focus := group);
    if k :| WalkedAt(was, k) {
      var j := FirstWalked(was, k);
      NarrowNarrows(s, t, group, j);
      if !IsIn(was, group, was.current) {
        OutsideIsNotWalked(was, group);
        MoveEndsThere(was, Take(s, t).s.cycle, was.sessions[j].at);
      }
    } else {
      NarrowNarrows(s, t, group, 0);
    }
  }

  lemma MoveEndsThere(was: Place, now: Place, next: Located)
    ensures IsMove(was, now, next) ==> now.current == next
  {
  }

  lemma {:induction false} FirstWalked(c: Place, k: int) returns (j: nat)
    requires WalkedAt(c, k)
    ensures WalkedAt(c, j) && forall i | i < j :: !WalkedAt(c, i)
    decreases k
  {
    if i :| i < k && WalkedAt(c, i) { j := FirstWalked(c, i); } else { j := k; }
  }

  lemma OutsideIsNotWalked(c: Place, group: Option<string>)
    requires c.focus == group && !IsIn(c, group, c.current)
    ensures forall k | WalkedAt(c, k) :: c.sessions[k].at != c.current
  {
    forall k | WalkedAt(c, k) ensures c.sessions[k].at != c.current {
      assert c.sessions[k] in c.sessions;
    }
  }

  /** A session started, beside this one or on a machine chosen, is gone to, and the narrowing left behind. */
  lemma StartGoes(s: Loop, t: Turn, started: Option<Located>)
    requires CameBack(t, New(started)) || CameBack(t, Chose(On(started)))
    ensures var was, after := Came(s, t), Take(s, t);
            match started
            case Some(at) => Goes(was, after, at, None, Focused)
            case None => GoesOn(after, was, false, Control)
  {
    hide Take, Came, MovedTo, IsMove;
    if CameBack(t, New(started)) { TakenIsRan(s, t, New(started)); } else { TakenIsRan(s, t, Chose(On(started))); }
    if started.Some? { MovingMoves(Came(s, t), started.value); }
  }

  /** Moving a session between groups relists, naming one renames it wherever it is held, and neither moves anybody. */
  lemma ChangesStay(s: Loop, t: Turn, choice: Choice)
    requires CameBack(t, Chose(choice))
    ensures var was, after := Came(s, t), Take(s, t);
            match choice
            case Refused => GoesOn(after, was, false, Control)
            case Narrow(None) => GoesOn(after, was, false, Control)
            case Regroup(None) => GoesOn(after, was, false, Control)
            case Named(None, _) => GoesOn(after, was, false, Control)
            case Regroup(Some(sessions)) =>
              after.Again? && GoesOn(after, after.s.cycle, false, Control) && IsRefresh(was, after.s.cycle, sessions)
            case Named(Some(at), name) =>
              after.Again? && GoesOn(after, after.s.cycle, false, Control) && IsRename(was, after.s.cycle, at, name)
            case _ => true
  {
    hide Take, Came, Refreshed, RenamedAt, IsRefresh, IsRename;
    TakenIsRan(s, t, Chose(choice));
    match choice
    case Regroup(Some(sessions)) => RefreshingRefreshes(Came(s, t), sessions);
    case Named(Some(at), name) => RenamingRenames(Came(s, t), at, name);
    case _ =>
  }

  /**
    A session that ends hands back to the head of the trail, its exit carried; with
    nothing to hand back to, the run ends in it. The exit is of the session as it is
    called by then.
   */
  lemma ExitFallsBack(s: Loop, t: Turn, code: int)
    requires CameBack(t, Exited(code))
    ensures var was, after, exit := Came(s, t), Take(s, t), Ending(code, Where(s, t));
            if was.trail == [] then after == Stop(Finished(exit))
            else
              && after.Again? && after.s == Loop(after.s.cycle, true, false, Some(exit), None, Focused)
              && IsFallBack(was, after.s.cycle)
  {
    hide Take, Came, FallenBack, IsFallBack;
    TakenIsRan(s, t, Exited(code));
    FallingBackGoesBack(Came(s, t));
  }

  /** A connection dropped waits or is given up, a detach leaves, and a run that broke is that. */
  lemma OtherOutcomes(s: Loop, t: Turn)
    requires t.attempt.Lands?
    ensures t.attempt.ran == Some(Dropped(Retry)) ==> Take(s, t) == Again(Loop(Came(s, t), true, false, None, Some(1), Focused))
    ensures t.attempt.ran == Some(Dropped(GiveUp)) ==> Take(s, t) == Stop(Disconnected(Where(s, t)))
    ensures t.attempt.ran == Some(Detached) ==> Take(s, t) == Stop(Left(Where(s, t)))
    ensures t.attempt.ran == None ==> Take(s, t) == Stop(RunFailed)
  {
    hide Told, Renamed;
  }

  /** An attempt that missed, whatever the run was carrying. */
  lemma MissIs(s: Loop, t: Turn)
    requires t.attempt.Missed?
    ensures var gone, after := t.attempt.gone, Take(s, t);
            && (gone && s.ended.Some? ==> after == Stop(Finished(s.ended.value)))
            && ((!gone || (s.ended.None? && !s.hopped)) && s.attached && t.attempt.wait == GiveUp ==>
                  after == Stop(Disconnected(Ready(s, t).current)))
            && ((!gone || (s.ended.None? && !s.hopped)) && s.attached && t.attempt.wait == Retry ==>
                  after == Again(Loop(Ready(s, t), true, s.hopped, s.ended,
                                      Some(1 + if s.lost.Some? then s.lost.value else 0), Focused)))
            && ((!gone || (s.ended.None? && !s.hopped)) && !s.attached ==> after == Stop(AttemptFailed))
  {
    hide Ready;
  }
}
