/**
  src/attaching.rs: attaching, and attaching again, for as long as the switch keys
  ask for another session and for as long as one that ends has another to hand
  back to.
 */
module AttachLoop {
  import opened Cycles
  import opened Lists
  import opened Sessions
  import opened Wrappers

  // ----- What one turn of the loop meets -----

  datatype Wait = Retry | GiveUp

  /** What a listing that has landed does to the cycle. */
  datatype News = Relisted(sessions: seq<Entry>) | Rename(was: Located, name: string)

  /** What the popup was used for. */
  datatype Choice =
    | Refused
    | Go(there: Option<Located>)
    | Narrow(group: Option<Option<string>>)
    | On(started: Option<Located>)
    | Regroup(sessions: Option<seq<Entry>>)
    | Named(at: Option<Located>, name: string)

  datatype Outcome =
    | Chose(choice: Choice)
    | New(begun: Option<Located>)
    | Switch(news: seq<News>, motion: Motion)
    | Exited(code: int)
    | Dropped(wait: Wait)
    | Detached

  /**
    `group` is what the first landing narrows to, where the listing knows the session;
    `renamed` the session's own rename.
   */
  datatype Attempt =
    | Lands(news: seq<News>, group: Option<Option<string>>, before: seq<News>, renamed: Option<string>, ran: Option<Outcome>)
    | Missed(gone: bool, wait: Wait)

  /** `recovered` is the current session's new name, where a listing shows it moved under the name this run knew. */
  datatype Turn = Turn(news: seq<News>, recovered: Option<string>, attempt: Attempt)

  // ----- What it keeps and how it ends -----

  datatype Mode = Focused | Control

  datatype Ending = Ending(code: int, at: Located)

  /** `lost` counts the waits since an attach last worked. */
  datatype Loop = Loop(cycle: Place, attached: bool, hopped: bool, ended: Option<Ending>, lost: Option<nat>, mode: Mode)

  datatype End =
    | AttemptFailed
    | RunFailed
    | Finished(exit: Ending)
    | Disconnected(at: Located)
    | Left(at: Located)

  datatype Next = Again(s: Loop) | Stop(end: End)

  function Begin(at: Located): Loop {
    Loop(StartAt(at), false, false, None, None, Focused)
  }

  function Told(c: Place, news: seq<News>): Place {
    if news == [] then c
    else
      var before := Told(c, news[..|news| - 1]);
      match news[|news| - 1]
      case Relisted(sessions) => Refreshed(before, sessions)
      case Rename(was, name) => if was == before.current then before else RenamedAt(before, was, name)
  }

  function Renamed(c: Place, name: Option<string>): Place {
    match name
    case Some(n) => RenamedAt(c, c.current, n)
    case None => c
  }

  /** The cycle as an attempt finds it. */
  function Ready(s: Loop, t: Turn): Place {
    Renamed(Told(s.cycle, t.news), t.recovered)
  }

  function Waited(s: Loop, at: Located, wait: Wait): Next {
    match wait
    case Retry => Again(s.(lost := Some(if s.lost.Some? then s.lost.value + 1 else 1), mode := Focused))
    case GiveUp => Stop(Disconnected(at))
  }

  function Hop(s: Loop, next: Option<Located>): Loop {
    match next
    case Some(there) => s.(cycle := MovedTo(s.cycle, there), hopped := true)
    case None => s
  }

  function Begun(s: Loop, started: Option<Located>): Loop {
    match started
    case Some(at) => s.(cycle := Started(s.cycle, at), hopped := true, mode := Focused)
    case None => s
  }

  function Choose(s: Loop, choice: Choice): Loop {
    match choice
    case Refused => s
    case Go(there) => Hop(s.(mode := Focused), if there == Some(s.cycle.current) then None else there)
    case Narrow(None) => s
    case Narrow(Some(group)) =>
      var narrowed := s.(cycle := s.cycle.(focus := group));
      if Holds(narrowed.cycle, s.cycle.current) then narrowed else Hop(narrowed, Step(narrowed.cycle, Cycles.Next))
    case On(started) => Begun(s, started)
    case Regroup(sessions) =>
      if sessions.Some? then s.(cycle := Refreshed(s.cycle, sessions.value)) else s
    case Named(at, name) =>
      if at.Some? then s.(cycle := RenamedAt(s.cycle, at.value, name)) else s
  }

  /** After a run of the session at `at`. */
  function Ran(s: Loop, at: Located, outcome: Outcome): Next {
    match outcome
    case Chose(choice) => Again(Choose(s.(mode := Control), choice))
    case New(begun) => Again(Begun(s.(mode := Control), begun))
    case Switch(news, motion) =>
      var told := s.(cycle := Told(s.cycle, news), mode := Control);
      Again(Hop(told, Step(told.cycle, motion)))
    case Exited(code) =>
      if s.cycle.trail == [] then Stop(Finished(Ending(code, at)))
      else Again(s.(cycle := FallenBack(s.cycle), ended := Some(Ending(code, at)), mode := Focused))
    case Dropped(wait) => Waited(s, at, wait)
    case Detached => Stop(Left(at))
  }

  /** The state an attach that worked leaves, before its session runs. */
  function Landed(s: Loop, t: Turn): Loop
    requires t.attempt.Lands?
  {
    var told := Told(Ready(s, t), t.attempt.news);
    var cycle := if !s.attached && t.attempt.group.Some? then told.(focus := t.attempt.group.value) else told;
    Loop(cycle, true, false, None, None, s.mode)
  }

  function Take(s: Loop, t: Turn): Next {
    var cycle := Ready(s, t);
    var target := cycle.current;
    match t.attempt
    case Missed(gone, wait) =>
      if gone && s.ended.Some? then Stop(Finished(s.ended.value))
      else if gone && s.hopped then Again(s.(cycle := Undone(Forgotten(cycle, target)), hopped := false))
      else if s.attached then Waited(s.(cycle := cycle), target, wait)
      else Stop(AttemptFailed)
    case Lands(_, _, before, renamed, ran) =>
      if ran.None? then Stop(RunFailed)
      else
        var landed := Landed(s, t);
        var after := landed.(cycle := Renamed(Told(landed.cycle, before), renamed));
        Ran(after, Located(target.host, if renamed.Some? then renamed.value else target.session), ran.value)
  }

  function Run(s: Loop, turns: seq<Turn>): Next {
    if turns == [] then Again(s)
    else
      match Run(s, turns[..|turns| - 1])
      case Again(now) => Take(now, turns[|turns| - 1])
      case Stop(end) => Stop(end)
  }

  // ----- The loop itself -----

  method Tell(cycle: Cycle, news: seq<News>)
    modifies cycle
    ensures cycle.Value() == Told(old(cycle.Value()), news)
  {
    for i := 0 to |news|
      invariant cycle.Value() == Told(old(cycle.Value()), news[..i])
    {
      assert news[..i + 1][..i] == news[..i];
      match news[i] {
        case Relisted(sessions) => cycle.Refresh(sessions);
        case Rename(was, name) => if was != cycle.current { cycle.RenameAt(was, name); }
      }
    }
    assert news[..|news|] == news;
  }

  method DoAttach(host: string, name: string, turns: seq<Turn>) returns (end: Option<End>)
    ensures match Run(Begin(Located(AsListed(host), name)), turns)
            case Stop(e) => end == Some(e)
            case Again(_) => end == None
  {
    hide Told, RenamedAt, Forgotten, Undone, Ran, Run;
    var cycle := new Cycle(Located(AsListed(host), name));
    var mode := Focused;
    var hopped, attached := false, false;
    var lost: Option<nat>, ended: Option<Ending> := None, None;
    ghost var begin := Begin(cycle.current);
    NoTurns(begin);
    for i := 0 to |turns|
      invariant fresh(cycle)
      invariant Run(begin, turns[..i]) == Again(Loop(cycle.Value(), attached, hopped, ended, lost, mode))
    {
      var turn := turns[i];
      OneMoreTurn(begin, turns, i);
      Tell(cycle, turn.news);
      if turn.recovered.Some? {
        cycle.RenameAt(cycle.current, turn.recovered.value);
      }
      var target := cycle.current;
      if turn.attempt.Missed? {
        if turn.attempt.gone && ended.Some? {
          return Some(Finished(ended.value));
        }
        if turn.attempt.gone && hopped {
          cycle.Forget(target);
          cycle.Undo();
          hopped := false;
        } else if attached {
          mode := Focused;
          lost := Some((if lost.Some? then lost.value else 0) + 1);
          if turn.attempt.wait == GiveUp {
            return Some(Disconnected(target));
          }
        } else {
          return Some(AttemptFailed);
        }
      } else {
        var first := !attached;
        lost, attached, ended, hopped := None, true, None, false;
        Tell(cycle, turn.attempt.news);
        if first && turn.attempt.group.Some? {
          cycle.focus := turn.attempt.group.value;
        }
        if turn.attempt.ran.None? {
          return Some(RunFailed);
        }
        Tell(cycle, turn.attempt.before);
        var at := target;
        if turn.attempt.renamed.Some? {
          at := Located(target.host, turn.attempt.renamed.value);
          cycle.RenameAt(cycle.current, turn.attempt.renamed.value);
        }
        ghost var landed := Loop(cycle.Value(), true, false, None, None, mode);
        end, hopped, ended, lost, mode := AfterRun(cycle, at, turn.attempt.ran.value, mode, landed);
        if end.Some? {
          return end;
        }
      }
    }
    assert turns[..|turns|] == turns;
    return None;
  }

  /** What follows a run that came back, whatever it came back with. */
  method AfterRun(cycle: Cycle, at: Located, outcome: Outcome, was: Mode, ghost s: Loop)
    returns (end: Option<End>, hopped: bool, ended: Option<Ending>, lost: Option<nat>, mode: Mode)
    requires s == Loop(cycle.Value(), s.attached, false, None, None, was)
    modifies cycle
    ensures Ran(s, at, outcome) ==
            if end.Some? then Stop(end.value)
            else Again(Loop(cycle.Value(), s.attached, hopped, ended, lost, mode))
  {
    hide Told, RenamedAt, Refreshed, MovedTo, FallenBack, Step, Choose;
    end, hopped, ended, lost, mode := None, false, None, None, was;
    match outcome {
      case Chose(choice) =>
        hopped, mode := Chosen(cycle, choice, s.(mode := Control));
      case New(begun) =>
        mode := Control;
        if begun.Some? {
          cycle.Start(begun.value);
          hopped, mode := true, Focused;
        }
      case Switch(news, motion) =>
        Tell(cycle, news);
        var next := Step(cycle.Value(), motion);
        if next.Some? {
          cycle.MoveTo(next.value);
          hopped := true;
        }
        mode := Control;
      case Exited(code) =>
        var back := cycle.FallBack();
        if back.None? {
          end := Some(Finished(Ending(code, at)));
        } else {
          ended, mode := Some(Ending(code, at)), Focused;
        }
      case Dropped(wait) =>
        mode, lost := Focused, Some(1);
        if wait == GiveUp {
          end := Some(Disconnected(at));
        }
      case Detached => end := Some(Left(at));
    }
  }

  /** What the popup was used for, done to the cycle: whether that is a hop, and where the keyboard goes. */
  method Chosen(cycle: Cycle, choice: Choice, ghost s: Loop) returns (hopped: bool, mode: Mode)
    requires s.cycle == cycle.Value() && !s.hopped && s.mode == Control
    modifies cycle
    ensures Choose(s, choice) == s.(cycle := cycle.Value(), hopped := hopped, mode := mode)
  {
    hide RenamedAt, Refreshed, MovedTo, Step, Holds;
    hopped, mode := false, Control;
    match choice {
      case Refused =>
      case Go(there) =>
        mode := Focused;
        if there.Some? && there.value != cycle.current {
          cycle.MoveTo(there.value);
          hopped := true;
        }
      case Narrow(group) =>
        if group.Some? {
          cycle.focus := group.value;
          var next := Step(cycle.Value(), Cycles.Next);
          if next.Some? && !Holds(cycle.Value(), cycle.current) {
            cycle.MoveTo(next.value);
            hopped := true;
          }
        }
      case On(started) =>
        if started.Some? {
          cycle.Start(started.value);
          hopped, mode := true, Focused;
        }
      case Regroup(sessions) => if sessions.Some? { cycle.Refresh(sessions.value); }
      case Named(at, name) => if at.Some? { cycle.RenameAt(at.value, name); }
    }
  }

  lemma NoTurns(s: Loop)
    ensures Run(s, []) == Again(s)
  {
  }

  lemma LastTurn(s: Loop, turns: seq<Turn>)
    requires turns != []
    ensures var before := Run(s, turns[..|turns| - 1]);
            Run(s, turns) == if before.Again? then Take(before.s, turns[|turns| - 1]) else before
  {
  }

  lemma OneMoreTurn(s: Loop, turns: seq<Turn>, i: nat)
    requires i < |turns| && Run(s, turns[..i]).Again?
    ensures Run(s, turns[..i + 1]) == Take(Run(s, turns[..i]).s, turns[i])
    ensures Run(s, turns[..i + 1]).Stop? ==> Run(s, turns) == Run(s, turns[..i + 1])
  {
    assert turns[..i + 1][..i] == turns[..i];
    if Run(s, turns[..i + 1]).Stop? { StoppedIsOver(s, turns, i + 1); }
  }

  lemma {:induction false} StoppedIsOver(s: Loop, turns: seq<Turn>, i: nat)
    requires i <= |turns| && Run(s, turns[..i]).Stop?
    ensures Run(s, turns) == Run(s, turns[..i])
    decreases |turns|
  {
    if i == |turns| {
      assert turns[..i] == turns;
    } else {
      var before := turns[..|turns| - 1];
      assert before[..i] == turns[..i];
      StoppedIsOver(s, before, i);
    }
  }

  // ----- What every turn keeps -----

  ghost predicate Sane(s: Loop) {
    && (!s.attached ==> !s.hopped && s.ended.None? && s.lost.None?)
    && (s.ended.Some? ==> !s.hopped && s.mode == Focused)
    && (s.hopped ==> s.cycle.trail != [])
    && (s.lost.Some? ==> s.mode == Focused)
  }

  lemma {:induction false} ToldKeepsPlace(c: Place, news: seq<News>)
    ensures Told(c, news).current == c.current && |Told(c, news).trail| == |c.trail|
    decreases |news|
  {
    if news != [] { ToldKeepsPlace(c, news[..|news| - 1]); }
  }

  lemma ReadyKeepsTrail(s: Loop, t: Turn)
    ensures |Ready(s, t).trail| == |s.cycle.trail|
    ensures t.recovered.None? ==> Ready(s, t).current == s.cycle.current
  {
    ToldKeepsPlace(s.cycle, t.news);
  }

  lemma TurnStaysSane(s: Loop, t: Turn)
    requires Sane(s) && Take(s, t).Again?
    ensures Sane(Take(s, t).s)
  {
    hide Told, Refreshed, Step, Holds;
    ReadyKeepsTrail(s, t);
  }

  lemma {:induction false} RunStaysSane(at: Located, turns: seq<Turn>)
    requires Run(Begin(at), turns).Again?
    ensures Sane(Run(Begin(at), turns).s)
    ensures Run(Begin(at), turns).s.attached <==> turns != []
    decreases |turns|
  {
    if turns != [] {
      hide Told, Refreshed, Step, Holds, Ran;
      var n := |turns| - 1;
      RunStaysSane(at, turns[..n]);
      TurnStaysSane(Run(Begin(at), turns[..n]).s, turns[n]);
      RanStaysAttached(Run(Begin(at), turns[..n]).s, turns[n]);
    }
  }

  lemma RanStaysAttached(s: Loop, t: Turn)
    requires Sane(s) && Take(s, t).Again?
    ensures Take(s, t).s.attached
    ensures !s.attached ==> t.attempt.Lands?
  {
    hide Told, Refreshed, Step, Holds;
  }

  /**
    Of the errors an attempt can end in, the one a run reports is its very first
    attempt's; nothing later is ever reported.
   */
  lemma OnlyTheFirstMissIsAnError(at: Located, turns: seq<Turn>)
    ensures Run(Begin(at), turns) == Stop(AttemptFailed) <==> turns != [] && turns[0].attempt.Missed?
  {
    hide Told, Refreshed, Step, Holds, Ran;
    if turns != [] {
      assert turns[..1][..0] == [] && turns[..1][0] == turns[0];
      assert Run(Begin(at), turns[..1]) == Take(Begin(at), turns[0]);
      if turns[0].attempt.Missed? {
        StoppedIsOver(Begin(at), turns, 1);
      } else {
        ErrorMeansFirst(at, turns);
      }
    }
  }

  lemma {:induction false} ErrorMeansFirst(at: Located, turns: seq<Turn>)
    requires turns != [] && turns[0].attempt.Lands?
    ensures Run(Begin(at), turns) != Stop(AttemptFailed)
    decreases |turns|
  {
    hide Told, Refreshed, Step, Holds;
    var n := |turns| - 1;
    if n > 0 {
      ErrorMeansFirst(at, turns[..n]);
      if Run(Begin(at), turns[..n]).Again? { RunStaysSane(at, turns[..n]); }
    }
  }

  // ----- Waiting -----

  predicate Unanswered(t: Turn) {
    t.attempt == Missed(false, Retry)
  }

  lemma OneWait(s: Loop, t: Turn)
    requires s.attached && Unanswered(t)
    ensures Take(s, t).Again?
    ensures var now := Take(s, t).s;
            && now.attached && now.hopped == s.hopped && now.ended == s.ended
            && now.lost == Some((if s.lost.Some? then s.lost.value else 0) + 1)
            && (t.recovered.None? ==> now.cycle.current == s.cycle.current)
  {
    hide Told, Refreshed, Ready, Ran, Landed;
    ReadyKeepsTrail(s, t);
  }

  /**
    Once attached, a machine that does not answer is waited for however long that
    is: the run goes on, for the same session, with its hop and the exit it may be
    carrying as they were, counting the waits.
   */
  lemma {:induction false} WaitsForTheSameSession(s: Loop, turns: seq<Turn>)
    requires s.attached && forall i | 0 <= i < |turns| :: Unanswered(turns[i])
    ensures Run(s, turns).Again?
    ensures var now := Run(s, turns).s;
            && now.attached && now.hopped == s.hopped && now.ended == s.ended
            && now.lost == (if turns == [] then s.lost else Some((if s.lost.Some? then s.lost.value else 0) + |turns|))
            && ((forall i | 0 <= i < |turns| :: turns[i].recovered.None?) ==> now.cycle.current == s.cycle.current)
    decreases |turns|
  {
    if turns != [] {
      hide Run, Take, Unanswered;
      var n := |turns| - 1;
      LastTurn(s, turns);
      WaitsForTheSameSession(s, turns[..n]);
      OneWait(Run(s, turns[..n]).s, turns[n]);
    }
  }

  /**
    And only giving up ends it there: after any run that has met a turn at all, a
    miss that is neither a hop to undo nor the end of a carried exit stops the run
    exactly when the wait is given up, for the session it was waiting for.
   */
  lemma OnlyGivingUpEndsAWait(at: Located, turns: seq<Turn>, t: Turn)
    requires turns != [] && Run(Begin(at), turns).Again?
    requires t.attempt.Missed? && !Undoes(Run(Begin(at), turns).s, t)
    requires !(t.attempt.gone && CarriedExit(turns).Some?)
    ensures Run(Begin(at), turns + [t]).Stop? <==> t.attempt.wait == GiveUp
    ensures t.attempt.wait == GiveUp ==>
              Run(Begin(at), turns + [t]) == Stop(Disconnected(Ready(Run(Begin(at), turns).s, t).current))
  {
    hide Told, Refreshed;
    assert (turns + [t])[..|turns|] == turns;
    RunStaysSane(at, turns);
    EndedIsTheExitCarried(at, turns);
  }

  // ----- Which exit is the run's -----

  /** The exit of the last session landed in, when that is what came last but for attempts that missed. */
  function CarriedExit(turns: seq<Turn>): Option<int> {
    if turns == [] then None
    else
      match turns[|turns| - 1].attempt
      case Missed(_, _) => CarriedExit(turns[..|turns| - 1])
      case Lands(_, _, _, _, ran) => if ran.Some? && ran.value.Exited? then Some(ran.value.code) else None
  }

  lemma TurnCarries(s: Loop, t: Turn)
    requires Sane(s) && Take(s, t).Again?
    ensures t.attempt.Missed? ==> Take(s, t).s.ended == s.ended
    ensures t.attempt.Lands? ==>
              t.attempt.ran.Some? &&
              match t.attempt.ran.value
              case Exited(code) => Take(s, t).s.ended.Some? && Take(s, t).s.ended.value.code == code
              case _ => Take(s, t).s.ended.None?
  {
    hide Told, Refreshed, Step, Holds;
  }

  lemma {:induction false} EndedIsTheExitCarried(at: Located, turns: seq<Turn>)
    requires Run(Begin(at), turns).Again?
    ensures var ended := Run(Begin(at), turns).s.ended;
            CarriedExit(turns) == if ended.Some? then Some(ended.value.code) else None
    decreases |turns|
  {
    if turns != [] {
      hide Take;
      var n := |turns| - 1;
      EndedIsTheExitCarried(at, turns[..n]);
      RunStaysSane(at, turns[..n]);
      TurnCarries(Run(Begin(at), turns[..n]).s, turns[n]);
    }
  }

  /**
    A run ends in an exit in two cases and no others: a session exits with nothing
    to fall back to, and the exit is its own; or the one fallen back to is gone
    before any attach works again, and the exit is the one that led there.
   */
  lemma ExitIsFinalExactlyWhen(at: Located, turns: seq<Turn>, t: Turn, exit: Ending)
    requires Run(Begin(at), turns).Again?
    ensures var s := Run(Begin(at), turns).s;
            Run(Begin(at), turns + [t]) == Stop(Finished(exit)) <==>
            match t.attempt
            case Missed(gone, _) => gone && s.ended == Some(exit) && CarriedExit(turns) == Some(exit.code)
            case Lands(_, _, _, renamed, ran) =>
              && ran == Some(Exited(exit.code)) && s.cycle.trail == []
              && exit.at == (var target := Ready(s, t).current;
                             if renamed.Some? then Located(target.host, renamed.value) else target)
  {
    hide Take, Run, Ready;
    assert (turns + [t])[..|turns|] == turns;
    LastTurn(Begin(at), turns + [t]);
    EndedIsTheExitCarried(at, turns);
    ExitOfATurn(Run(Begin(at), turns).s, t, exit);
  }

  lemma ExitOfATurn(s: Loop, t: Turn, exit: Ending)
    ensures Take(s, t) == Stop(Finished(exit)) <==>
            match t.attempt
            case Missed(gone, _) => gone && s.ended == Some(exit)
            case Lands(_, _, _, renamed, ran) =>
              && ran == Some(Exited(exit.code)) && s.cycle.trail == []
              && exit.at == (var target := Ready(s, t).current;
                             if renamed.Some? then Located(target.host, renamed.value) else target)
  {
    hide Step, Holds, Told, Ready;
    if t.attempt.Lands? { LandingKeepsTheTrail(s, t); }
  }

  lemma LandingKeepsTheTrail(s: Loop, t: Turn)
    requires t.attempt.Lands?
    ensures |Renamed(Told(Landed(s, t).cycle, t.attempt.before), t.attempt.renamed).trail| == |s.cycle.trail|
  {
    hide Told, Ready;
    ReadyKeepsTrail(s, t);
    ToldKeepsPlace(Ready(s, t), t.attempt.news);
    ToldKeepsPlace(Landed(s, t).cycle, t.attempt.before);
  }

  // ----- Hops that could not be made -----

  predicate Undoes(s: Loop, t: Turn) {
    t.attempt.Missed? && t.attempt.gone && s.hopped && s.ended.None?
  }

  /** The nearest on a trail that is not at an address. */
  function NearestBut(gone: Located, trail: seq<Located>): (r: Option<Located>)
    ensures r.None? ==> forall at | at in trail :: at == gone
    ensures r.Some? ==> r.value in trail && r.value != gone
  {
    if trail == [] then None
    else if trail[0] != gone then Some(trail[0])
    else
      assert trail == [trail[0]] + trail[1..];
      NearestBut(gone, trail[1..])
  }

  lemma {:induction false} NearestIsKept(gone: Located, trail: seq<Located>)
    ensures var kept := Filter(But(gone), trail);
            NearestBut(gone, trail) == if kept == [] then None else Some(kept[0])
  {
    if trail != [] { NearestIsKept(gone, trail[1..]); }
  }

  /**
    Undoing goes to the nearest on the trail that is not at the dead address, which
    is out of the trail and the walk; and if there is none such, stays for whoever
    is called that now.
   */
  lemma UndoingGoesBack(s: Loop, t: Turn)
    requires Undoes(s, t)
    ensures var c, back := Ready(s, t), Take(s, t);
            && back.Again? && !back.s.hopped
            && back.s.cycle.current == (match NearestBut(c.current, c.trail) case Some(at) => at case None => c.current)
            && c.current !in back.s.cycle.trail
            && forall entry | entry in back.s.cycle.sessions :: entry.at != c.current
  {
    hide Ready, NearestBut;
    var c := Ready(s, t);
    NearestIsKept(c.current, c.trail);
    FilterKeeps(But(c.current), c.trail);
    FilterKeeps(EntriesBut(c.current), c.sessions);
    var kept := Filter(But(c.current), c.trail);
    if kept != [] { assert forall at | at in kept[1..] :: at in kept; }
  }

  /** What an address on the trail is called once some news is told. */
  function ToldOf(c: Place, news: seq<News>, at: Located): Located {
    if news == [] then at
    else
      var before, now := Told(c, news[..|news| - 1]), ToldOf(c, news[..|news| - 1], at);
      match news[|news| - 1]
      case Relisted(_) => now
      case Rename(was, name) => if was == before.current then now else RowIds.RenamedTo(was, name)(now)
  }

  lemma {:induction false} TrailIsTold(c: Place, news: seq<News>, k: nat)
    requires k < |c.trail| == |Told(c, news).trail|
    ensures Told(c, news).trail[k] == ToldOf(c, news, c.trail[k])
    decreases |news|
  {
    if news != [] {
      ToldKeepsPlace(c, news[..|news| - 1]);
      TrailIsTold(c, news[..|news| - 1], k);
    }
  }

  function ReadyOf(s: Loop, t: Turn, at: Located): Located {
    var now := ToldOf(s.cycle, t.news, at);
    match t.recovered
    case Some(name) => RowIds.RenamedTo(Told(s.cycle, t.news).current, name)(now)
    case None => now
  }

  lemma TrailIsReady(s: Loop, t: Turn, k: nat)
    requires k < |s.cycle.trail|
    ensures |Ready(s, t).trail| == |s.cycle.trail| && Ready(s, t).trail[k] == ReadyOf(s, t, s.cycle.trail[k])
  {
    hide Told, ToldOf;
    ToldKeepsPlace(s.cycle, t.news);
    TrailIsTold(s.cycle, t.news, k);
  }

  /** The same over turns that only wait. */
  function FollowedOver(s: Loop, waits: seq<Turn>, at: Located): Located {
    if waits == [] then at
    else
      match Run(s, waits[..|waits| - 1])
      case Again(now) => ReadyOf(now, waits[|waits| - 1], FollowedOver(s, waits[..|waits| - 1], at))
      case Stop(_) => at
  }

  lemma {:induction false} TrailIsFollowed(s: Loop, waits: seq<Turn>, k: nat)
    requires s.attached && (forall i | 0 <= i < |waits| :: Unanswered(waits[i])) && k < |s.cycle.trail|
    ensures Run(s, waits).Again? && |Run(s, waits).s.cycle.trail| == |s.cycle.trail|
    ensures Run(s, waits).s.cycle.trail[k] == FollowedOver(s, waits, s.cycle.trail[k])
    decreases |waits|
  {
    if waits != [] {
      hide ReadyOf, Ready;
      var n := |waits| - 1;
      WaitsForTheSameSession(s, waits[..n]);
      TrailIsFollowed(s, waits[..n], k);
      assert Unanswered(waits[n]);
      TrailIsReady(Run(s, waits[..n]).s, waits[n], k);
    }
  }

  /**
    A hop onto a session that has gone is undone, however many attempts went
    unanswered first and whatever listings and renames landed meanwhile, and the dead
    address is out of the trail and the walk. The run is back at the session the hop
    was made from, under the name it has by then, exactly when that name is not the
    dead one's, or there is nobody else to go back to.
   */
  lemma HopIsTakenBack(s: Loop, t: Turn, waits: seq<Turn>, gone: Turn)
    requires t.attempt.Lands? && Take(s, t).Again? && Take(s, t).s.hopped
    requires forall i | 0 <= i < |waits| :: Unanswered(waits[i])
    requires gone.attempt.Missed? && gone.attempt.gone
    ensures Run(Take(s, t).s, waits).Again?
    ensures var there := Run(Take(s, t).s, waits).s;
            var origin := Renamed(Told(Landed(s, t).cycle, t.attempt.before), t.attempt.renamed).current;
            var home := ReadyOf(there, gone, FollowedOver(Take(s, t).s, waits, origin));
            var c, back := Ready(there, gone), Take(there, gone);
            && c.trail != [] && c.trail[0] == home
            && back.Again? && !back.s.hopped && c.current !in back.s.cycle.trail
            && (forall entry | entry in back.s.cycle.sessions :: entry.at != c.current)
            && (back.s.cycle.current == home <==> home != c.current || forall at | at in c.trail :: at == c.current)
            && (home == c.current ==>
                  back.s.cycle.current == match NearestBut(c.current, c.trail) case Some(at) => at case None => home)
  {
    var hopped := Take(s, t).s;
    HopPutsItsOriginFirst(s, t);
    LandingAttaches(s, t);
    hide Take, Ready, ReadyOf, Told, Landed, Renamed;
    WaitsForTheSameSession(hopped, waits);
    TrailIsFollowed(hopped, waits, 0);
    var there := Run(hopped, waits).s;
    TrailIsReady(there, gone, 0);
    UndoingGoesBack(there, gone);
  }

  /** Three turns after which it is not: the session hopped from has been given the dead one's name, and is passed over. */
  function TurnsThatMissHome(home: Located, dead: Located): seq<Turn> {
    [Turn([], None, Lands([], None, [], None, Some(New(Some(home))))),
     Turn([], None, Lands([], None, [], None, Some(New(Some(dead))))),
     Turn([Rename(home, dead.session)], None, Missed(true, Retry))]
  }

  lemma HomeCanBeMissed(first: Located, home: Located, dead: Located)
    requires home.host == dead.host && first != home && home != dead && first != dead
    ensures var turns := TurnsThatMissHome(home, dead);
            && Run(Begin(first), turns[..2]).Again? && Undoes(Run(Begin(first), turns[..2]).s, turns[2])
            && Run(Begin(first), turns[..2]).s.cycle.trail == [home, first]
            && Run(Begin(first), turns).Again? && Run(Begin(first), turns).s.cycle == Place([], first, [], None)
  {
    var turns := TurnsThatMissHome(home, dead);
    var start := Begin(first);
    var once := start.(cycle := Place([], home, [first], None), attached := true, hopped := true);
    var twice := once.(cycle := Place([], dead, [home, first], None));
    StartingHops(start, home);
    StartingHops(once, dead);
    assert turns[..1] == [turns[0]] && turns[..1][..0] == [] && turns[..2][..1] == turns[..1] && turns[..2][1] == turns[1];
    assert Run(start, turns[..1]) == Again(once);
    assert Run(start, turns[..2]) == Again(twice);
    assert turns[..|turns| - 1] == turns[..2];
    PassedOver(twice, first, home, dead);
  }

  lemma StartingHops(s: Loop, at: Located)
    requires s.cycle.sessions == [] && s.cycle.focus == None && at !in s.cycle.trail
    requires s.ended == None && s.lost == None && s.mode == Focused
    ensures Take(s, Turn([], None, Lands([], None, [], None, Some(New(Some(at))))))
         == Again(Loop(Place([], at, [s.cycle.current] + s.cycle.trail, None), true, true, None, None, Focused))
  {
    assert Told(s.cycle, []) == s.cycle;
    FilterAll(But(at), s.cycle.trail);
  }

  lemma PassedOver(s: Loop, first: Located, home: Located, dead: Located)
    requires home.host == dead.host && first != home && home != dead && first != dead
    requires s.cycle == Place([], dead, [home, first], None) && s.hopped && s.ended == None
    ensures var back := Take(s, Turn([Rename(home, dead.session)], None, Missed(true, Retry)));
            back.Again? && back.s.cycle == Place([], first, [], None)
  {
    var news := [Rename(home, dead.session)];
    assert news[..0] == [] && Told(s.cycle, []) == s.cycle;
    var f := RowIds.RenamedTo(home, dead.session);
    assert Map(f, [home, first]) == [dead, first] by {
      assert [home, first][..1] == [home] && [home, first][1..] == [first] && Map(f, [first]) == [first];
    }
    assert Told(s.cycle, news) == Place([], dead, [dead, first], None);
    assert [dead, first][1..] == [first] && Filter(But(dead), [first]) == [first];
    assert Filter(But(dead), [dead, first]) == [first] && [first][1..] == [];
  }

  lemma LandingAttaches(s: Loop, t: Turn)
    requires t.attempt.Lands? && Take(s, t).Again?
    ensures Take(s, t).s.attached
  {
    hide Told, Refreshed, Step, Holds;
  }

  lemma HopPutsItsOriginFirst(s: Loop, t: Turn)
    requires t.attempt.Lands? && Take(s, t).Again? && Take(s, t).s.hopped
    ensures Take(s, t).s.ended.None?
    ensures Take(s, t).s.cycle.trail != []
    ensures Take(s, t).s.cycle.trail[0] == Renamed(Told(Landed(s, t).cycle, t.attempt.before), t.attempt.renamed).current
  {
    hide Told, Refreshed, Step, Holds, RenamedAt;
    var after := Renamed(Told(Landed(s, t).cycle, t.attempt.before), t.attempt.renamed);
    if t.attempt.ran.value.Switch? { ToldKeepsPlace(after, t.attempt.ran.value.news); }
  }

  /** The turns that undo a hop, those that land and those that wait. */
  function Undos(s: Loop, turns: seq<Turn>): nat {
    if turns == [] then 0
    else
      var before := turns[..|turns| - 1];
      var t := turns[|turns| - 1];
      Undos(s, before) + if Run(s, before).Again? && Undoes(Run(s, before).s, t) then 1 else 0
  }

  function Landings(turns: seq<Turn>): nat {
    if turns == [] then 0 else Landings(turns[..|turns| - 1]) + if turns[|turns| - 1].attempt.Lands? then 1 else 0
  }

  /** The waits the run sat out: the misses that were not undone. */
  function Waits(s: Loop, turns: seq<Turn>): nat {
    if turns == [] then 0
    else
      var before := turns[..|turns| - 1];
      var t := turns[|turns| - 1];
      var waits := t.attempt.Missed? && Run(s, before).Again? && !Undoes(Run(s, before).s, t);
      Waits(s, before) + if waits then 1 else 0
  }

  /**
    The loop never spins: between any two turns of a run that undo a hop a session is
    landed in. So no two are next to each other, and between one attach, wait or end
    and the next there is at most one.
   */
  lemma NeverSpins(at: Located, turns: seq<Turn>, i: nat, j: nat) returns (k: nat)
    requires i < j < |turns| && Run(Begin(at), turns[..i]).Again? && Run(Begin(at), turns[..j]).Again?
    requires Undoes(Run(Begin(at), turns[..i]).s, turns[i]) && Undoes(Run(Begin(at), turns[..j]).s, turns[j])
    ensures i < k < j && turns[k].attempt.Lands?
  {
    hide Take;
    RunGoesOn(at, turns, i + 1, j);
    OneMoreTurn(Begin(at), turns, i);
    RunStaysSane(at, turns[..i]);
    UndoingSpendsTheHop(Run(Begin(at), turns[..i]).s, turns[i]);
    k := HoppingTakesALanding(at, turns, i + 1, j);
  }

  /** What has not stopped by some turn had not stopped before it. */
  lemma {:induction false} RunGoesOn(at: Located, turns: seq<Turn>, i: nat, j: nat)
    requires i <= j <= |turns| && Run(Begin(at), turns[..j]).Again?
    ensures Run(Begin(at), turns[..i]).Again?
    decreases j
  {
    if i < j {
      assert turns[..j][..j - 1] == turns[..j - 1];
      RunGoesOn(at, turns, i, j - 1);
    }
  }

  lemma {:induction false} HoppingTakesALanding(at: Located, turns: seq<Turn>, i: nat, j: nat) returns (k: nat)
    requires i <= j <= |turns| && Run(Begin(at), turns[..i]).Again? && Run(Begin(at), turns[..j]).Again?
    requires !Run(Begin(at), turns[..i]).s.hopped && Run(Begin(at), turns[..j]).s.hopped
    ensures i <= k < j && turns[k].attempt.Lands?
    decreases j
  {
    hide Take;
    RunGoesOn(at, turns, j - 1, j);
    OneMoreTurn(Begin(at), turns, j - 1);
    RunStaysSane(at, turns[..j - 1]);
    UndoingSpendsTheHop(Run(Begin(at), turns[..j - 1]).s, turns[j - 1]);
    if turns[j - 1].attempt.Lands? {
      k := j - 1;
    } else {
      k := HoppingTakesALanding(at, turns, i, j - 1);
    }
  }

  /** Every turn lands, undoes or waits, and no more undo than land. */
  lemma {:induction false} TurnsAddUp(at: Located, turns: seq<Turn>)
    requires Run(Begin(at), turns).Again?
    ensures Undos(Begin(at), turns) + (if Run(Begin(at), turns).s.hopped then 1 else 0) <= Landings(turns)
    ensures |turns| == Landings(turns) + Undos(Begin(at), turns) + Waits(Begin(at), turns)
    decreases |turns|
  {
    if turns != [] {
      hide Take, Undoes;
      var n := |turns| - 1;
      TurnsAddUp(at, turns[..n]);
      RunStaysSane(at, turns[..n]);
      UndoingSpendsTheHop(Run(Begin(at), turns[..n]).s, turns[n]);
    }
  }

  lemma UndoingSpendsTheHop(s: Loop, t: Turn)
    requires Sane(s) && Take(s, t).Again?
    ensures Undoes(s, t) ==> t.attempt.Missed? && s.hopped && !Take(s, t).s.hopped
    ensures t.attempt.Missed? && !Undoes(s, t) ==> Take(s, t).s.hopped == s.hopped
  {
    hide Told, Refreshed, Step, Holds, RenamedAt;
  }

  // ----- A session appears once on the trail -----

  /** A rename that gives no session a name already on the trail. */
  predicate IsFreshName(c: Place, was: Located, name: string) {
    was in Recent(c) && name != was.session ==> Located(was.host, name) !in Recent(c)
  }

  predicate FreshNews(c: Place, news: seq<News>) {
    forall i | 0 <= i < |news| && news[i].Rename? :: IsFreshName(Told(c, news[..i]), news[i].was, news[i].name)
  }

  predicate FreshRename(c: Place, name: Option<string>) {
    name.Some? ==> IsFreshName(c, c.current, name.value)
  }

  /** What the world does in a turn is fresh: new sessions are new and new names are free. */
  predicate IsFresh(s: Loop, t: Turn) {
    && FreshNews(s.cycle, t.news) && FreshRename(Told(s.cycle, t.news), t.recovered)
    && (t.attempt.Lands? ==>
          && FreshNews(Ready(s, t), t.attempt.news)
          && FreshNews(Landed(s, t).cycle, t.attempt.before)
          && FreshRename(Told(Landed(s, t).cycle, t.attempt.before), t.attempt.renamed)
          && (t.attempt.ran.Some? ==>
                var c := Renamed(Told(Landed(s, t).cycle, t.attempt.before), t.attempt.renamed);
                match t.attempt.ran.value
                case New(begun) => begun != Some(c.current)
                case Switch(news, _) => FreshNews(c, news)
                case Chose(On(started)) => started != Some(c.current)
                case Chose(Named(at, name)) => at.Some? ==> IsFreshName(c, at.value, name)
                case _ => true))
  }

  lemma RenamingFreshly(c: Place, was: Located, name: string)
    requires Distinct(Recent(c)) && IsFreshName(c, was, name)
    ensures Distinct(Recent(RenamedAt(c, was, name)))
  {
    if was in Recent(c) {
      RenamingStaysDistinct(c, was, name);
    } else {
      var renamed := Recent(RenamedAt(c, was, name));
      assert forall k | 0 <= k < |Recent(c)| :: Recent(c)[k] in Recent(c);
      assert renamed == Recent(c);
    }
  }

  lemma {:induction false} ToldStaysDistinct(c: Place, news: seq<News>)
    requires Distinct(Recent(c)) && FreshNews(c, news)
    ensures Distinct(Recent(Told(c, news)))
    decreases |news|
  {
    if news != [] {
      hide RenamedAt, Refreshed, IsFreshName, Distinct;
      var n := |news| - 1;
      var before := news[..n];
      forall i | 0 <= i < n && before[i].Rename? ensures IsFreshName(Told(c, before[..i]), before[i].was, before[i].name) {
        assert before[..i] == news[..i];
      }
      ToldStaysDistinct(c, before);
      match news[n]
      case Relisted(sessions) => RelistingKeepsRecent(Told(c, before), sessions);
      case Rename(was, name) => RenamingFreshly(Told(c, before), was, name);
    }
  }

  lemma RelistingKeepsRecent(c: Place, sessions: seq<Entry>)
    ensures Recent(Refreshed(c, sessions)) == Recent(c)
  {
  }

  lemma LandedStaysDistinct(s: Loop, t: Turn)
    requires Distinct(Recent(s.cycle)) && IsFresh(s, t) && t.attempt.Lands?
    ensures Distinct(Recent(Ready(s, t)))
    ensures Distinct(Recent(Renamed(Told(Landed(s, t).cycle, t.attempt.before), t.attempt.renamed)))
  {
    hide Told, RenamedAt, FreshNews, IsFreshName, Distinct;
    ReadyStaysDistinct(s, t);
    ToldStaysDistinct(Ready(s, t), t.attempt.news);
    assert Recent(Landed(s, t).cycle) == Recent(Told(Ready(s, t), t.attempt.news));
    ToldStaysDistinct(Landed(s, t).cycle, t.attempt.before);
    var told := Told(Landed(s, t).cycle, t.attempt.before);
    if t.attempt.renamed.Some? { RenamingFreshly(told, told.current, t.attempt.renamed.value); }
  }

  lemma ReadyStaysDistinct(s: Loop, t: Turn)
    requires Distinct(Recent(s.cycle)) && FreshNews(s.cycle, t.news) && FreshRename(Told(s.cycle, t.news), t.recovered)
    ensures Distinct(Recent(Ready(s, t)))
  {
    hide Told, RenamedAt, FreshNews, IsFreshName, Distinct;
    ToldStaysDistinct(s.cycle, t.news);
    if t.recovered.Some? { RenamingFreshly(Told(s.cycle, t.news), Told(s.cycle, t.news).current, t.recovered.value); }
  }

  /** One turn of that. */
  lemma TurnStaysDistinct(s: Loop, t: Turn)
    requires Distinct(Recent(s.cycle)) && IsFresh(s, t) && Take(s, t).Again?
    ensures Distinct(Recent(Take(s, t).s.cycle))
  {
    hide Told, RenamedAt, Refreshed, MovedTo, Forgotten, Undone, FallenBack, FreshNews, IsFreshName, Distinct, Step;
    hide Holds;
    if t.attempt.Missed? {
      ReadyStaysDistinct(s, t);
      var c := Ready(s, t);
      LosingStaysDistinct(c, c.current);
      LosingStaysDistinct(Forgotten(c, c.current), c.current);
    } else {
      LandedStaysDistinct(s, t);
      var after := Landed(s, t).(cycle := Renamed(Told(Landed(s, t).cycle, t.attempt.before), t.attempt.renamed));
      RanStaysDistinct(after, t.attempt.ran.value);
    }
  }

  lemma RanStaysDistinct(s: Loop, outcome: Outcome)
    requires Distinct(Recent(s.cycle))
    requires match outcome
             case New(begun) => begun != Some(s.cycle.current)
             case Switch(news, _) => FreshNews(s.cycle, news)
             case Chose(On(started)) => started != Some(s.cycle.current)
             case Chose(Named(at, name)) => at.Some? ==> IsFreshName(s.cycle, at.value, name)
             case _ => true
    ensures forall at :: Ran(s, at, outcome).Again? ==> Distinct(Recent(Ran(s, at, outcome).s.cycle))
  {
    hide Told, RenamedAt, Refreshed, FallenBack, FreshNews, IsFreshName, Distinct, Step, Holds;
    match outcome {
      case Chose(choice) => ChoiceStaysDistinct(s.(mode := Control), choice);
      case New(begun) => if begun.Some? { MovingStaysDistinct(s.cycle, begun.value); }
      case Switch(news, motion) =>
        ToldStaysDistinct(s.cycle, news);
        var told := Told(s.cycle, news);
        if Step(told, motion).Some? { MovingStaysDistinct(told, Step(told, motion).value); }
      case Exited(code) => LosingStaysDistinct(s.cycle, s.cycle.current);
      case Dropped(wait) =>
      case Detached =>
    }
  }

  lemma ChoiceStaysDistinct(s: Loop, choice: Choice)
    requires Distinct(Recent(s.cycle))
    requires match choice
             case On(started) => started != Some(s.cycle.current)
             case Named(at, name) => at.Some? ==> IsFreshName(s.cycle, at.value, name)
             case _ => true
    ensures Distinct(Recent(Choose(s, choice).cycle))
  {
    hide RenamedAt, Refreshed, IsFreshName, Distinct, Step, Holds;
    match choice {
      case Refused =>
      case Go(there) => if there.Some? && there.value != s.cycle.current { MovingStaysDistinct(s.cycle, there.value); }
      case Narrow(group) =>
        if group.Some? {
          var narrowed := s.cycle.(focus := group.value);
          assert Recent(narrowed) == Recent(s.cycle);
          if Step(narrowed, Cycles.Next).Some? { MovingStaysDistinct(narrowed, Step(narrowed, Cycles.Next).value); }
        }
      case On(started) => if started.Some? { MovingStaysDistinct(s.cycle, started.value); }
      case Regroup(sessions) => if sessions.Some? { RelistingKeepsRecent(s.cycle, sessions.value); }
      case Named(at, name) => if at.Some? { RenamingFreshly(s.cycle, at.value, name); }
    }
  }

  /** A run every turn of which is fresh. */
  ghost predicate FreshRun(s: Loop, turns: seq<Turn>) {
    forall i | 0 <= i < |turns| && Run(s, turns[..i]).Again? :: IsFresh(Run(s, turns[..i]).s, turns[i])
  }

  /**
    As long as what is new is new, no session is on the trail twice: after any run of
    turns, and in the landing after it that a popup is drawn in.
   */
  lemma {:induction false} TrailStaysDistinct(at: Located, turns: seq<Turn>)
    requires FreshRun(Begin(at), turns) && Run(Begin(at), turns).Again?
    ensures Distinct(Recent(Run(Begin(at), turns).s.cycle))
    ensures forall t: Turn | t.attempt.Lands? && IsFresh(Run(Begin(at), turns).s, t) ::
              Distinct(Recent(Landed(Run(Begin(at), turns).s, t).cycle))
    decreases |turns|
  {
    hide Take, IsFresh, Distinct, Landed;
    if turns == [] {
      StartIsDistinct(at);
    } else {
      var n := |turns| - 1;
      var before := turns[..n];
      forall i | 0 <= i < |before| && Run(Begin(at), before[..i]).Again?
        ensures IsFresh(Run(Begin(at), before[..i]).s, before[i])
      {
        assert before[..i] == turns[..i];
      }
      TrailStaysDistinct(at, before);
      TurnStaysDistinct(Run(Begin(at), before).s, turns[n]);
    }
    forall t: Turn | t.attempt.Lands? && IsFresh(Run(Begin(at), turns).s, t)
      ensures Distinct(Recent(Landed(Run(Begin(at), turns).s, t).cycle))
    {
      LandedIsDistinct(Run(Begin(at), turns).s, t);
    }
  }

  lemma StartIsDistinct(at: Located)
    ensures Distinct(Recent(Begin(at).cycle))
  {
  }

  lemma LandedIsDistinct(s: Loop, t: Turn)
    requires Distinct(Recent(s.cycle)) && IsFresh(s, t) && t.attempt.Lands?
    ensures Distinct(Recent(Landed(s, t).cycle))
  {
    hide Told, RenamedAt, FreshNews, IsFreshName, Distinct;
    ReadyStaysDistinct(s, t);
    ToldStaysDistinct(Ready(s, t), t.attempt.news);
    assert Recent(Landed(s, t).cycle) == Recent(Told(Ready(s, t), t.attempt.news));
  }

  /**
    It takes fresh names. The session a run began in ends, and the one it went on to
    is given its name: the trail has one address twice, whatever the names are.
   */
  lemma RenameRepeatsTheTrail(at: Located, other: Located)
    requires other.host == at.host && other != at
    ensures var turns := TurnsThatRepeat(at, other);
            && Run(Begin(at), turns).Again?
            && Recent(Run(Begin(at), turns).s.cycle) == [at, at]
  {
    var turns := TurnsThatRepeat(at, other);
    assert turns[..1] == [turns[0]] && turns[..1][..0] == [];
    var start := Begin(at);
    assert Told(start.cycle, []) == start.cycle;
    var hopped := start.(cycle := Place([], other, [at], None), attached := true, hopped := true, mode := Focused);
    assert Filter(But(other), []) == [];
    assert Take(start, turns[0]) == Again(hopped);
    assert Run(start, turns[..1]) == Again(hopped);
    assert Told(hopped.cycle, []) == hopped.cycle;
    var c := RenamedAt(hopped.cycle, other, at.session);
    assert c == Place([], at, [at], None) by {
      assert Map(RowIds.RenamedTo(other, at.session), [at]) == [at];
      assert Map(RenamedEntry(other, at.session), []) == [];
    }
    assert Step(c, Cycles.Next) == None;
  }

  /** A session started beside this one; then this one's name given to it, and a tab that goes nowhere. */
  function TurnsThatRepeat(at: Located, other: Located): seq<Turn> {
    [Turn([], None, Lands([], None, [], None, Some(New(Some(other))))),
     Turn([], None, Lands([], None, [], Some(at.session), Some(Switch([], Cycles.Next))))]
  }
}
