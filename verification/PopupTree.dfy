/** What the popup's tree promises whoever reads it, over src/client/listed.rs:328-601. */
module PopupTree {
  import opened Groups
  import opened Lists
  import opened Popup
  import opened RowIds
  import opened Sessions
  import opened Snapshots
  import opened Text
  import opened Wrappers

  // ----- Each session is drawn once -----

  lemma {:induction false} DrawnOfConcat(a: seq<Line>, b: seq<Line>)
    ensures Drawn(a + b) == Drawn(a) + Drawn(b)
  {
    if b == [] {
      assert a + b == a;
    } else {
      assert (a + b)[..|a + b| - 1] == a + b[..|b| - 1];
      DrawnOfConcat(a, b[..|b| - 1]);
    }
  }

  lemma DrawnOfThree(a: seq<Line>, b: seq<Line>, c: seq<Line>)
    ensures Drawn(a + b + c) == Drawn(a) + Drawn(b) + Drawn(c)
  {
    DrawnOfConcat(a + b, c);
    DrawnOfConcat(a, b);
  }

  lemma {:induction false} DrawnOfRuns(run: seq<Placed>, indent: nat)
    ensures Drawn(Runs(run, indent)) == Map(Address(), run)
  {
    if run != [] {
      var n := |run| - 1;
      DrawnOfRuns(run[..n], indent);
      DrawnOfOneMore(run, indent);
    }
  }

  lemma DrawnOfOneMore(run: seq<Placed>, indent: nat)
    requires run != [] && Drawn(Runs(run[..|run| - 1], indent)) == Map(Address(), run[..|run| - 1])
    ensures Drawn(Runs(run, indent)) == Map(Address(), run)
  {
    hide Drawn, Map, At;
    var heading, last := MachineHeading(run, indent), Session(At(run[|run| - 1].row), indent + 1);
    var before := Runs(run[..|run| - 1], indent);
    assert Drawn(heading) == [] by { DrawnOfNone(); if heading != [] { DrawnOfOne(heading[0]); } }
    assert Drawn([last]) == [last.at] by { DrawnOfOne(last); }
    calc {
      Drawn(Runs(run, indent));
      Drawn(before + heading + [last]);
      { DrawnOfThree(before, heading, [last]); }
      Drawn(before) + [] + [last.at];
      { assert Drawn(before) + [] == Drawn(before); }
      Map(Address(), run[..|run| - 1]) + [Address()(run[|run| - 1])];
      { MapOneMore(Address(), run); }
      Map(Address(), run);
    }
  }

  lemma DrawnOfNone()
    ensures Drawn([]) == []
  {
  }

  lemma DrawnOfOne(line: Line)
    ensures Drawn([line]) == match line case Session(at, _) => [at] case Heading(_, _) => []
  {
    assert [line][..0] == [];
  }

  function InAny(names: seq<string>): Placed -> bool {
    (s: Placed) => s.group.Some? && s.group.value in names
  }

  lemma {:induction false} DrawnOfGroups(names: seq<string>, showing: seq<Placed>)
    requires Distinct(names)
    ensures multiset(Drawn(GroupLines(names, showing))) == multiset(Map(Address(), Filter(InAny(names), showing)))
    decreases |names|
  {
    if names == [] {
      FilterAll(InAny(names), showing);
    } else {
      var before, name := names[..|names| - 1], names[|names| - 1];
      DrawnOfGroups(before, showing);
      var run := Runs(Filter(InGroup(Some(name)), showing), 1);
      DrawnOfThree(GroupLines(before, showing), [Heading("@" + name, 0)], run);
      DrawnOfOne(Heading("@" + name, 0));
      DrawnOfRuns(Filter(InGroup(Some(name)), showing), 1);
      assert forall other :: other in names <==> other in before || other == name;
      FilterSplits(Address(), InAny(names), InAny(before), InGroup(Some(name)), showing);
    }
  }

  lemma {:induction false} GroupsSeenAreTheGroups(showing: seq<Placed>)
    ensures Distinct(GroupsSeen(showing))
    ensures forall s | s in showing && s.group.Some? :: s.group.value in GroupsSeen(showing)
    decreases |showing|
  {
    if showing != [] {
      var n := |showing| - 1;
      GroupsSeenAreTheGroups(showing[..n]);
      assert forall s :: s in showing ==> s in showing[..n] || s == showing[n];
    }
  }

  /** The sessions drawn are the sessions showing, each as often as it is there. */
  lemma EachSessionOnce(showing: seq<Placed>)
    ensures multiset(Drawn(Lines(showing))) == multiset(Map(Address(), showing))
  {
    var names := GroupsSeen(showing);
    GroupsSeenAreTheGroups(showing);
    DrawnOfGroups(names, showing);
    DrawnOfConcat(GroupLines(names, showing), Runs(Filter(InGroup(None), showing), 0));
    DrawnOfRuns(Filter(InGroup(None), showing), 0);
    var any := (s: Placed) => true;
    FilterSplits(Address(), any, InAny(names), InGroup(None), showing);
    FilterAll(any, showing);
  }

  function Addressed(): HostedSession -> Located {
    (row: HostedSession) => At(row)
  }

  /**
    The rows you can land on are the sessions that pass the narrowing, each once,
    and the session you are in whether or not it is among them.
   */
  lemma RowsAreTheSessions(p: Picture, g: Table, focus: Option<string>, current: Located)
    ensures var showing := Map(Address(), Showing(p, g, focus));
            multiset(Drawn(LinesFor(p, g, focus, current)))
            == multiset(showing) + if current in showing then multiset{} else multiset{current}
    ensures Distinct(Map(Addressed(), Known(p))) ==> Distinct(Drawn(LinesFor(p, g, focus, current)))
  {
    hide Filter, Lines, Drawn;
    var showing := Showing(p, g, focus);
    var lines := Lines(showing);
    EachSessionOnce(showing);
    assert current in Drawn(lines) <==> current in multiset(Drawn(lines));
    assert current in Map(Address(), showing) <==> current in multiset(Map(Address(), showing));
    if current !in Drawn(lines) {
      var deep := if focus.Some? then 1 else 0;
      var last := [Heading(current.host, deep), Session(current, deep + 1)];
      DrawnOfConcat(lines, last);
      DrawnOfConcat(last[..1], last[1..]);
      assert last == last[..1] + last[1..] && last[..1] == [last[0]] && last[1..] == [last[1]];
      DrawnOfOne(last[0]);
      DrawnOfOne(last[1]);
      assert LinesFor(p, g, focus, current) == lines + last;
      assert Drawn(lines + last) == Drawn(lines) + [current];
    }
    if Distinct(Map(Addressed(), Known(p))) {
      assert Map(Address(), Map(WithGroup(g), Known(p))) == Map(Addressed(), Known(p));
      FilterOfDistinct(Address(), InFocus(focus), Map(WithGroup(g), Known(p)));
      DistinctCounts(Map(Address(), showing));
      DistinctCounts(Drawn(LinesFor(p, g, focus, current)));
    }
  }

  // ----- Under its own headings -----

  /** The heading a line is under: the nearest above it. */
  function Above(lines: seq<Line>, i: nat): Option<string>
    requires i <= |lines|
  {
    if i == 0 then None
    else if lines[i - 1].Heading? then Some(lines[i - 1].text)
    else Above(lines, i - 1)
  }

  /** The section a line is in: the nearest heading above it that is not itself inside something. */
  function Section(lines: seq<Line>, i: nat): Option<string>
    requires i <= |lines|
  {
    if i == 0 then None
    else if lines[i - 1].Heading? && lines[i - 1].indent == 0 then Some(lines[i - 1].text)
    else Section(lines, i - 1)
  }

  lemma {:induction false} AboveInConcat(a: seq<Line>, b: seq<Line>, i: nat)
    requires i <= |b|
    ensures Above(a + b, |a| + i) == if Above(b, i).Some? then Above(b, i) else Above(a, |a|)
    ensures Section(a + b, |a| + i) == if Section(b, i).Some? then Section(b, i) else Section(a, |a|)
    decreases i
  {
    if i == 0 {
      AboveInFront(a, b, |a|);
    } else {
      AboveInConcat(a, b, i - 1);
      assert (a + b)[|a| + i - 1] == b[i - 1];
    }
  }

  lemma {:induction false} AboveInFront(a: seq<Line>, b: seq<Line>, i: nat)
    requires i <= |a|
    ensures Above(a + b, i) == Above(a, i) && Section(a + b, i) == Section(a, i)
  {
    if i > 0 { AboveInFront(a, b, i - 1); }
  }

  /** What a session showing should be under: its machine, in its group's section or its machine's own. */
  predicate Stands(lines: seq<Line>, i: nat, s: Placed)
    requires i < |lines|
  {
    && lines[i].Session? && lines[i].at == At(s.row)
    && Above(lines, i) == Some(s.row.host)
    && Section(lines, i) == Some(match s.group case Some(name) => "@" + name case None => s.row.host)
  }

  ghost predicate AllStand(lines: seq<Line>, showing: seq<Placed>) {
    forall i | 0 <= i < |lines| && lines[i].Session? :: exists s :: s in showing && Stands(lines, i, s)
  }

  lemma StandTogether(a: seq<Line>, b: seq<Line>, showing: seq<Placed>)
    requires AllStand(a, showing) && AllStand(b, showing)
    ensures AllStand(a + b, showing)
  {
    var lines := a + b;
    hide Section, Above;
    forall i | 0 <= i < |lines| && lines[i].Session? ensures exists s :: s in showing && Stands(lines, i, s) {
      if i < |a| {
        assert lines[i] == a[i];
        var s :| s in showing && Stands(a, i, s);
        AboveInFront(a, b, i);
        assert Stands(lines, i, s);
      } else {
        assert lines[i] == b[i - |a|];
        var s :| s in showing && Stands(b, i - |a|, s);
        AboveInConcat(a, b, i - |a|);
        assert Stands(lines, i, s);
      }
    }
  }

  lemma RunsOneMore(run: seq<Placed>, indent: nat)
    requires run != []
    ensures var n := |run| - 1;
            Runs(run, indent) == Runs(run[..n], indent) + MachineHeading(run, indent) + [Session(At(run[n].row), indent + 1)]
  {
  }

  lemma RunsOfNone(indent: nat)
    ensures Runs([], indent) == []
  {
  }

  /** Inside a run: each line's session, its machine above it, and what the headings there do to the section. */
  lemma {:induction false} RunStands(run: seq<Placed>, indent: nat, i: nat)
    requires i < |Runs(run, indent)|
    ensures var lines := Runs(run, indent);
            && (lines[i].Session? ==> exists s :: s in run && lines[i].at == At(s.row) && Above(lines, i) == Some(s.row.host))
            && Section(lines, i) == if indent == 0 then Above(lines, i) else None
    ensures var lines := Runs(run, indent);
            run != [] ==> Above(lines, |lines|) == Some(run[|run| - 1].row.host)
    ensures var lines := Runs(run, indent); Section(lines, |lines|) == if indent == 0 then Above(lines, |lines|) else None
    decreases |run|
  {
    hide At, Runs;
    RunsOfNone(indent);
    var n := |run| - 1;
    var before := Runs(run[..n], indent);
    var heading, last := MachineHeading(run, indent), [Session(At(run[n].row), indent + 1)];
    RunsOneMore(run, indent);
    assert Runs(run, indent) == before + (heading + last);
    if n > 0 {
      RunsAreNotEmpty(run[..n], indent);
      RunStands(run[..n], indent, if i < |before| then i else 0);
    }
    LastStands(run, before, heading, last, indent, i);
  }

  lemma LastStands(run: seq<Placed>, before: seq<Line>, heading: seq<Line>, last: seq<Line>, indent: nat, i: nat)
    requires run != [] && heading == MachineHeading(run, indent) && last == [Session(At(run[|run| - 1].row), indent + 1)]
    requires i < |before + (heading + last)|
    requires i < |before| && before[i].Session? ==>
               exists s :: s in run[..|run| - 1] && before[i].at == At(s.row) && Above(before, i) == Some(s.row.host)
    requires i < |before| ==> Section(before, i) == if indent == 0 then Above(before, i) else None
    requires |run| > 1 ==> Above(before, |before|) == Some(run[|run| - 2].row.host)
    requires |run| == 1 ==> before == []
    requires Section(before, |before|) == if indent == 0 then Above(before, |before|) else None
    ensures var lines := before + (heading + last);
            && (lines[i].Session? ==> exists s :: s in run && lines[i].at == At(s.row) && Above(lines, i) == Some(s.row.host))
            && Section(lines, i) == (if indent == 0 then Above(lines, i) else None)
            && Above(lines, |lines|) == Some(run[|run| - 1].row.host)
            && Section(lines, |lines|) == if indent == 0 then Above(lines, |lines|) else None
  {
    hide At, Above, Section;
    var lines := before + (heading + last);
    assert run[|run| - 1] in run && forall s :: s in run[..|run| - 1] ==> s in run;
    AboveInFront(before, heading + last, if i < |before| then i else |before|);
    AboveInConcat(before, heading + last, if i < |before| then 0 else i - |before|);
    AboveInConcat(before, heading + last, |heading + last|);
    assert |lines| == |before| + |heading + last|;
    LastOfRun(heading, last, run[|run| - 1].row.host, indent);
  }

  lemma LastOfRun(heading: seq<Line>, last: seq<Line>, host: string, indent: nat)
    requires |last| == 1 && last[0].Session?
    requires heading == [] || heading == [Heading(host, indent)]
    ensures var lines := heading + last;
            && Above(lines, |lines|) == Above(lines, |heading|) == (if heading == [] then None else Some(host))
            && Above(lines, 0) == None && Section(lines, 0) == None
            && Section(lines, |lines|) == Section(lines, |heading|) == (if heading == [] || indent != 0 then None else Some(host))
  {
    var lines := heading + last;
    assert lines[|heading|] == last[0];
    if heading != [] { assert lines[0] == heading[0]; }
  }

  /** A group's section is whole: its heading, and every session under it in it. */
  lemma GroupSectionStands(name: string, showing: seq<Placed>)
    ensures AllStand([Heading("@" + name, 0)] + Runs(Filter(InGroup(Some(name)), showing), 1), showing)
  {
    hide At, Runs, Filter;
    var run := Filter(InGroup(Some(name)), showing);
    var head: seq<Line>, lines := [Heading("@" + name, 0)], Runs(run, 1);
    FilterKeeps(InGroup(Some(name)), showing);
    forall i | 0 <= i < |head + lines| && (head + lines)[i].Session?
      ensures exists s :: s in showing && Stands(head + lines, i, s)
    {
      RunStands(run, 1, i - 1);
      var s :| s in run && lines[i - 1].at == At(s.row) && Above(lines, i - 1) == Some(s.row.host);
      AboveInConcat(head, lines, i - 1);
      assert Section(head, 1) == Some("@" + name);
      assert Stands(head + lines, i, s);
    }
  }

  lemma LooseOnesStand(showing: seq<Placed>)
    ensures AllStand(Runs(Filter(InGroup(None), showing), 0), showing)
  {
    hide At;
    var run := Filter(InGroup(None), showing);
    var lines := Runs(run, 0);
    FilterKeeps(InGroup(None), showing);
    forall i | 0 <= i < |lines| && lines[i].Session? ensures exists s :: s in showing && Stands(lines, i, s) {
      RunStands(run, 0, i);
      var s :| s in run && lines[i].at == At(s.row) && Above(lines, i) == Some(s.row.host);
      assert Stands(lines, i, s);
    }
  }

  lemma {:induction false} GroupsStand(names: seq<string>, showing: seq<Placed>)
    ensures AllStand(GroupLines(names, showing), showing)
    decreases |names|
  {
    if names != [] {
      hide AllStand, Runs, Filter;
      var before, name := names[..|names| - 1], names[|names| - 1];
      GroupsStand(before, showing);
      GroupSectionStands(name, showing);
      var section := [Heading("@" + name, 0)] + Runs(Filter(InGroup(Some(name)), showing), 1);
      StandTogether(GroupLines(before, showing), section, showing);
      assert GroupLines(names, showing) == GroupLines(before, showing) + section;
    }
  }

  /**
    The row added for the session you are in: under its own machine's heading, which
    is a section of its own, or under a narrowing is inside the section above, if
    there is one, whatever group the session is in.
   */
  predicate StandsApart(lines: seq<Line>, i: nat, showing: seq<Placed>, current: Located, focus: Option<string>)
    requires i < |lines|
  {
    && i == |lines| - 1 && lines[i].Session? && lines[i].at == current && current !in Map(Address(), showing)
    && Above(lines, i) == Some(current.host)
    && Section(lines, i) == match focus
                            case None => Some(current.host)
                            case Some(name) => if showing == [] then None else Some("@" + name)
  }

  /**
    Every session of the listing stands under its own machine's heading, in its
    group's section if it is in a group and its machine's if it is not; and the one
    you are in stands apart exactly when it is not among them.
   */
  lemma EverySessionStands(p: Picture, g: Table, focus: Option<string>, current: Located)
    ensures var lines, showing := LinesFor(p, g, focus, current), Showing(p, g, focus);
            && (forall i | 0 <= i < |lines| && lines[i].Session? ::
                  (exists s :: s in showing && Stands(lines, i, s)) || StandsApart(lines, i, showing, current, focus))
            && (lines != [] && StandsApart(lines, |lines| - 1, showing, current, focus) <==>
                  current !in Map(Address(), showing))
  {
    hide Lines, Drawn, Filter, Showing, Above, Section;
    var showing := Showing(p, g, focus);
    var lines, all := Lines(showing), LinesFor(p, g, focus, current);
    ListedStand(showing);
    ShownAreDrawn(showing, current);
    if current in Map(Address(), showing) {
      assert all == lines;
    } else {
      LastStandsApart(p, g, focus, current);
      var last := all[|lines|..];
      forall i | 0 <= i < |lines| && all[i].Session? ensures exists s :: s in showing && Stands(all, i, s) {
        assert all[i] == lines[i];
        var s :| s in showing && Stands(lines, i, s);
        AboveInFront(lines, last, i);
        assert all == lines + last;
        assert Stands(all, i, s);
      }
    }
  }

  lemma ListedStand(showing: seq<Placed>)
    ensures AllStand(Lines(showing), showing)
  {
    hide GroupLines, Runs, AllStand;
    GroupsStand(GroupsSeen(showing), showing);
    LooseOnesStand(showing);
    StandTogether(GroupLines(GroupsSeen(showing), showing), Runs(Filter(InGroup(None), showing), 0), showing);
  }

  lemma ShownAreDrawn(showing: seq<Placed>, at: Located)
    ensures at in Drawn(Lines(showing)) <==> at in Map(Address(), showing)
  {
    hide Lines, Drawn;
    EachSessionOnce(showing);
    assert at in Drawn(Lines(showing)) <==> at in multiset(Drawn(Lines(showing)));
    assert at in Map(Address(), showing) <==> at in multiset(Map(Address(), showing));
  }

  lemma LastStandsApart(p: Picture, g: Table, focus: Option<string>, current: Located)
    requires current !in Map(Address(), Showing(p, g, focus))
    ensures var lines, deep := Lines(Showing(p, g, focus)), if focus.Some? then 1 else 0;
            && LinesFor(p, g, focus, current) == lines + [Heading(current.host, deep), Session(current, deep + 1)]
            && StandsApart(LinesFor(p, g, focus, current), |lines| + 1, Showing(p, g, focus), current, focus)
  {
    hide Lines, Drawn, Filter, Showing;
    var showing := Showing(p, g, focus);
    var lines, deep := Lines(showing), if focus.Some? then 1 else 0;
    ShownAreDrawn(showing, current);
    var last := [Heading(current.host, deep), Session(current, deep + 1)];
    AboveInConcat(lines, last, 1);
    assert Section(last, 1) == if deep == 0 then Some(current.host) else Section(last, 0);
    if focus.Some? { SectionOfFocus(p, g, focus.value); }
  }

  /** Under a narrowing there is one section, the group's, or nothing at all. */
  lemma OnlyTheFocus(p: Picture, g: Table, name: string)
    ensures var showing := Showing(p, g, Some(name));
            && (forall s | s in showing :: s.group == Some(name))
            && Lines(showing) == if showing == [] then [] else [Heading("@" + name, 0)] + Runs(showing, 1)
  {
    var showing := Showing(p, g, Some(name));
    hide Showing, Runs;
    FocusKeeps(p, g, name);
    FilterAll(InGroup(Some(name)), showing);
    FilterAll(InGroup(None), showing);
    GroupsOfOne(showing, name);
    assert Runs([], 0) == [] by { RunsOfNone(0); }
    if showing != [] {
      assert [name][..0] == [];
      var section := [Heading("@" + name, 0)] + Runs(showing, 1);
      assert GroupLines([name], showing) == section;
      assert section + [] == section;
    }
  }

  lemma FocusKeeps(p: Picture, g: Table, name: string)
    ensures forall s | s in Showing(p, g, Some(name)) :: s.group == Some(name)
  {
    FilterKeeps(InFocus(Some(name)), Map(WithGroup(g), Known(p)));
  }

  lemma {:induction false} GroupsOfOne(showing: seq<Placed>, name: string)
    requires forall s | s in showing :: s.group == Some(name)
    ensures GroupsSeen(showing) == if showing == [] then [] else [name]
    decreases |showing|
  {
    if showing != [] {
      var n := |showing| - 1;
      assert showing[n] in showing;
      GroupsOfOne(showing[..n], name);
    }
  }

  lemma SectionOfFocus(p: Picture, g: Table, name: string)
    ensures var showing := Showing(p, g, Some(name));
            var lines := Lines(showing);
            Section(lines, |lines|) == if showing == [] then None else Some("@" + name)
  {
    hide Showing, Runs, Lines;
    var showing := Showing(p, g, Some(name));
    OnlyTheFocus(p, g, name);
    if showing != [] {
      RunsAreNotEmpty(showing, 1);
      RunStands(showing, 1, 0);
      var head: seq<Line> := [Heading("@" + name, 0)];
      AboveInConcat(head, Runs(showing, 1), |Runs(showing, 1)|);
      assert Section(head, 1) == Some("@" + name);
    }
  }

  lemma RunsAreNotEmpty(run: seq<Placed>, indent: nat)
    requires run != []
    ensures Runs(run, indent) != []
  {
  }

  /** Some line in a section shows a session. */
  ghost predicate InSection(lines: seq<Line>, at: Located, section: Option<string>) {
    exists i :: 0 <= i < |lines| && lines[i].Session? && lines[i].at == at && Section(lines, i) == section
  }

  predicate Shows(p: Picture, g: Table, focus: Option<string>, at: Located) {
    at in Map(Address(), Showing(p, g, focus))
  }

  /**
    So under a narrowing with anything in it, a session it does not show is drawn in
    the group's section if it is the one you are in, though known to be in no such group.
   */
  lemma DrawnInAGroupItIsNotIn(p: Picture, g: Table, name: string, row: HostedSession)
    requires row in Known(p) && !Shows(p, g, Some(name), At(row)) && Showing(p, g, Some(name)) != []
    ensures WithGroup(g)(row).group != Some(name)
    ensures InSection(LinesFor(p, g, Some(name), At(row)), At(row), Some("@" + name))
  {
    ApartInTheGroup(p, g, name, At(row));
    hide *;
    if WithGroup(g)(row).group == Some(name) { InFocusIsShown(p, g, name, row); }
  }

  lemma ApartInTheGroup(p: Picture, g: Table, name: string, at: Located)
    requires !Shows(p, g, Some(name), at) && Showing(p, g, Some(name)) != []
    ensures InSection(LinesFor(p, g, Some(name), at), at, Some("@" + name))
  {
    hide LinesFor, Showing, Lines, Section, Above, Map;
    LastStandsApart(p, g, Some(name), at);
    var lines := LinesFor(p, g, Some(name), at);
    assert lines[|Lines(Showing(p, g, Some(name)))| + 1].at == at;
  }

  lemma InFocusIsShown(p: Picture, g: Table, name: string, row: HostedSession)
    requires row in Known(p) && WithGroup(g)(row).group == Some(name)
    ensures Shows(p, g, Some(name), At(row))
  {
    hide Known, WithGroup;
    var placed, showing := Map(WithGroup(g), Known(p)), Showing(p, g, Some(name));
    var k :| 0 <= k < |Known(p)| && Known(p)[k] == row;
    assert placed[k] == WithGroup(g)(row);
    FilterKeeps(InFocus(Some(name)), placed);
    assert placed[k] in placed && InFocus(Some(name))(placed[k]);
    assert placed[k] in showing;
    var i :| 0 <= i < |showing| && showing[i] == placed[k];
    WithGroupKeepsRow(g, row);
    assert Map(Address(), showing)[i] == At(row);
  }

  lemma WithGroupKeepsRow(g: Table, row: HostedSession)
    ensures WithGroup(g)(row).row == row
  {
  }

  // ----- One row for where you are -----

  lemma {:induction false} LinesOfDistinct(lines: seq<Line>, i: nat, j: nat)
    requires Distinct(Drawn(lines))
    requires i < j < |lines| && lines[i].Session? && lines[j].Session?
    ensures lines[i].at != lines[j].at
    decreases |lines|
  {
    var n := |lines| - 1;
    assert Drawn(lines)[..|Drawn(lines[..n])|] == Drawn(lines[..n]);
    if j < n {
      assert forall a, b | 0 <= a < b < |Drawn(lines[..n])| :: Drawn(lines)[a] != Drawn(lines)[b];
      LinesOfDistinct(lines[..n], i, j);
    } else {
      DrawnAt(lines[..n], lines[i].at);
      assert lines[..n][i] == lines[i];
      var a :| 0 <= a < |Drawn(lines[..n])| && Drawn(lines[..n])[a] == lines[i].at;
      assert Drawn(lines)[a] != Drawn(lines)[|Drawn(lines)| - 1];
    }
  }

  /** No id is on two rows, and the id of the session you are in is on exactly one, which is the one highlighted. */
  lemma IdsAreDistinct(lines: seq<Line>, current: Located, i: nat, j: nat)
    requires Distinct(Drawn(lines))
    requires i < j < |lines| && lines[i].Session? && lines[j].Session?
    ensures RowsOf(lines, current)[i].id != RowsOf(lines, current)[j].id
  {
    LinesOfDistinct(lines, i, j);
    IdIsTheAddress(lines, current, i);
    IdIsTheAddress(lines, current, j);
  }

  lemma OneRowForWhereYouAre(p: Picture, g: Table, focus: Option<string>, recent: seq<Located>)
    requires recent != [] && Distinct(Map(Addressed(), Known(p)))
    ensures var rows := Arranged(p, g, focus, recent);
            var highlight := FirstRow(rows, CURRENT);
            && highlight.Some? && rows[highlight.value].text == recent[0].session
            && forall k | 0 <= k < |rows| && !rows[k].heading && rows[k].id == CURRENT :: k == highlight.value
  {
    hide RowsOf, AtOf, Numbered, LinesFor, Known, Drawn;
    var lines := LinesFor(p, g, focus, recent[0]);
    var rows := Arranged(p, g, focus, recent);
    RowsAreTheSessions(p, g, focus, recent[0]);
    OnlyTheLooksChange(p, lines, recent);
    ArrangedHasCurrent(p, g, focus, recent);
    var highlight := FirstRow(rows, CURRENT).value;
    IdIsTheAddress(lines, recent[0], highlight);
    assert SameButLooks(rows[highlight], RowsOf(lines, recent[0])[highlight]);
    forall k | 0 <= k < |rows| && !rows[k].heading && rows[k].id == CURRENT ensures k == highlight {
      assert SameButLooks(rows[k], RowsOf(lines, recent[0])[k]);
      IdIsTheAddress(lines, recent[0], k);
      if k > highlight { LinesOfDistinct(lines, highlight, k); }
    }
  }

  // ----- The digits -----

  function IsDrawn(lines: seq<Line>): Located -> bool {
    (at: Located) => at in Drawn(lines)
  }

  /** Where some lines are drawn from: their rows, whatever looks those have been given, and their table. */
  predicate Draws(lines: seq<Line>, current: Located, rows: seq<Row>, at: seq<Located>) {
    && at == AtOf(lines, current) && |rows| == |lines|
    && forall k | 0 <= k < |rows| :: SameButLooks(rows[k], RowsOf(lines, current)[k])
  }

  lemma FilterHolds<T>(keep: T -> bool, s: seq<T>, x: T)
    ensures x in Filter(keep, s) <==> x in s && keep(x)
  {
    FilterKeeps(keep, s);
  }

  /** What is drawn is what has an id, and the row with that id is the one that shows it. */
  lemma RowOfDrawn(lines: seq<Line>, current: Located, rows: seq<Row>, at: seq<Located>, was: Located)
    requires Draws(lines, current, rows, at) && Distinct(Drawn(lines)) && current in Drawn(lines)
    ensures was in Drawn(lines) <==> PositionOf(was, at).Some?
    ensures was in Drawn(lines) ==>
              var k := FirstRow(rows, PositionOf(was, at).value);
              k.Some? && lines[k.value].Session? && lines[k.value].at == was
  {
    hide RowsOf, AtOf, Drawn;
    AtIsDrawn(lines, current);
    FilterHolds(Other(current), Drawn(lines), was);
    DrawnAt(lines, was);
    if was in Drawn(lines) {
      var id := PositionOf(was, at).value;
      var i :| 0 <= i < |lines| && lines[i].Session? && lines[i].at == was;
      AtIsDistinct(lines, current);
      IdIsTheAddress(lines, current, i);
      assert SameButLooks(rows[i], RowsOf(lines, current)[i]);
      assert rows[i].id == id;
      var k := FirstRow(rows, id).value;
      IdIsTheAddress(lines, current, k);
      assert SameButLooks(rows[k], RowsOf(lines, current)[k]);
    }
  }

  lemma AtIsDistinct(lines: seq<Line>, current: Located)
    requires Distinct(Drawn(lines))
    ensures Distinct(AtOf(lines, current))
  {
    AtIsDrawn(lines, current);
    var same := (at: Located) => at;
    assert Map(same, Drawn(lines)) == Drawn(lines);
    FilterOfDistinct(same, Other(current), Drawn(lines));
    var others := Filter(Other(current), Drawn(lines));
    assert Map(same, others) == others;
    FilterKeeps(Other(current), Drawn(lines));
    forall i | 0 <= i < |others| ensures others[i] != current { assert others[i] in others; }
  }

  lemma DrawsStill(lines: seq<Line>, current: Located, rows: seq<Row>, at: seq<Located>, k: nat, digit: nat)
    requires Draws(lines, current, rows, at) && k < |rows|
    ensures Draws(lines, current, rows[k := rows[k].(number := Some(digit))], at)
  {
  }

  /** Where a value last is. */
  function LastPlace(at: Located, s: seq<Located>): Option<nat> {
    if s == [] then None
    else if s[|s| - 1] == at then Some(|s| - 1)
    else LastPlace(at, s[..|s| - 1])
  }

  lemma {:induction false} NothingAfterLast(at: Located, s: seq<Located>)
    ensures match LastPlace(at, s)
            case Some(i) => i < |s| && s[i] == at && at !in s[i + 1..]
            case None => at !in s
    decreases |s|
  {
    if s != [] && s[|s| - 1] != at {
      var n := |s| - 1;
      NothingAfterLast(at, s[..n]);
      assert s == s[..n] + [s[n]];
      match LastPlace(at, s[..n])
      case Some(i) => assert s[i + 1..] == s[..n][i + 1..] + [s[n]];
      case None =>
    }
  }

  lemma {:induction false} LastPlaceIs(at: Located, s: seq<Located>, i: nat)
    requires i < |s| && s[i] == at && at !in s[i + 1..]
    ensures LastPlace(at, s) == Some(i)
    decreases |s|
  {
    var n := |s| - 1;
    if i < n {
      assert s[n] == s[i + 1..][n - i - 1];
      assert s[i + 1..] == s[..n][i + 1..] + [s[n]];
      LastPlaceIs(at, s[..n], i);
    }
  }

  lemma {:induction false} LastPlaceAfter(at: Located, was: Located, rest: seq<Located>)
    ensures LastPlace(at, [was] + rest) ==
            match LastPlace(at, rest)
            case Some(i) => Some(i + 1)
            case None => if at == was then Some(0) else None
    decreases |rest|
  {
    var all := [was] + rest;
    if rest == [] {
      assert all[..0] == [];
    } else {
      assert all[..|all| - 1] == [was] + rest[..|rest| - 1];
      LastPlaceAfter(at, was, rest[..|rest| - 1]);
    }
  }

  /** As much of a trail as the digits left after `digit` reach. */
  function Reached(trail: seq<Located>, digit: nat): seq<Located>
    requires digit <= DIGITS
  {
    trail[..if DIGITS - digit < |trail| then DIGITS - digit else |trail|]
  }

  /** The digit a row ends with: the last one given to its session, counting on from `digit`. */
  function DigitFor(at: Located, trail: seq<Located>, digit: nat, otherwise: Option<nat>): Option<nat>
    requires digit <= DIGITS
  {
    Given(LastPlace(at, Reached(trail, digit)), digit, otherwise)
  }

  lemma ReachedAfter(was: Located, rest: seq<Located>, digit: nat)
    requires digit < DIGITS
    ensures Reached([was] + rest, digit) == [was] + Reached(rest, digit + 1)
    ensures digit + 1 == DIGITS ==> Reached(rest, digit + 1) == []
  {
  }

  /** A digit, given where its session last stands among those still to come. */
  function Given(place: Option<nat>, digit: nat, otherwise: Option<nat>): Option<nat> {
    match place
    case Some(n) => Some(digit + n + 1)
    case None => otherwise
  }

  lemma DigitAfter(at: Located, was: Located, rest: seq<Located>, digit: nat, otherwise: Option<nat>)
    requires digit < DIGITS
    ensures DigitFor(at, [was] + rest, digit, otherwise)
         == DigitFor(at, rest, digit + 1, if at == was then Some(digit + 1) else otherwise)
    ensures digit + 1 == DIGITS ==> DigitFor(at, rest, digit + 1, otherwise) == otherwise
  {
    var tail := Reached(rest, digit + 1);
    LastPlaceAfter(at, was, tail);
    ReachedAfter(was, rest, digit);
    assert digit + 1 == DIGITS ==> LastPlace(at, tail) == None;
    hide LastPlace, Reached;
    GivenAfter(LastPlace(at, tail), at == was, digit, otherwise);
  }

  lemma GivenAfter(place: Option<nat>, same: bool, digit: nat, otherwise: Option<nat>)
    ensures Given(match place case Some(i) => Some(i + 1) case None => if same then Some(0) else None, digit, otherwise)
         == Given(place, digit + 1, if same then Some(digit + 1) else otherwise)
  {
  }

  lemma NumberedOneMore(rows: seq<Row>, at: seq<Located>, trail: seq<Located>, digit: nat)
    requires trail != []
    ensures PositionOf(trail[0], at) == None ==> Numbered(rows, at, trail, digit) == Numbered(rows, at, trail[1..], digit)
    ensures PositionOf(trail[0], at).Some? && FirstRow(rows, PositionOf(trail[0], at).value).Some? ==>
              var k := FirstRow(rows, PositionOf(trail[0], at).value).value;
              var marked := rows[k := rows[k].(number := Some(digit + 1))];
              Numbered(rows, at, trail, digit) ==
              if digit + 1 == DIGITS then marked else Numbered(marked, at, trail[1..], digit + 1)
  {
  }

  lemma FilterOfFirst<T>(keep: T -> bool, s: seq<T>)
    requires s != []
    ensures Filter(keep, s) == if keep(s[0]) then [s[0]] + Filter(keep, s[1..]) else Filter(keep, s[1..])
  {
  }

  /** One digit given out: to the row of one session, and no other. */
  lemma NumberedMarks(lines: seq<Line>, current: Located, rows: seq<Row>, at: seq<Located>, trail: seq<Located>,
          digit: nat, k: nat)
    returns (marked: seq<Row>)
    requires Draws(lines, current, rows, at) && Distinct(Drawn(lines)) && current in Drawn(lines)
    requires trail != [] && trail[0] in Drawn(lines) && k < |lines| && lines[k].Session?
    ensures Draws(lines, current, marked, at) && |marked| == |rows| == |lines|
    ensures marked[k].number == if lines[k].at == trail[0] then Some(digit + 1) else rows[k].number
    ensures Numbered(rows, at, trail, digit) ==
            if digit + 1 == DIGITS then marked else Numbered(marked, at, trail[1..], digit + 1)
  {
    hide Drawn, RowsOf, AtOf, Numbered;
    RowOfDrawn(lines, current, rows, at, trail[0]);
    NumberedOneMore(rows, at, trail, digit);
    var drawn := FirstRow(rows, PositionOf(trail[0], at).value).value;
    marked := rows[drawn := rows[drawn].(number := Some(digit + 1))];
    DrawsStill(lines, current, rows, at, drawn, digit + 1);
    if drawn != k { LinesOfDistinct(lines, if drawn < k then drawn else k, if drawn < k then k else drawn); }
  }

  lemma NumberedSkips(lines: seq<Line>, current: Located, rows: seq<Row>, at: seq<Located>, trail: seq<Located>,
          digit: nat)
    requires Draws(lines, current, rows, at) && Distinct(Drawn(lines)) && current in Drawn(lines)
    requires trail != [] && trail[0] !in Drawn(lines)
    ensures Numbered(rows, at, trail, digit) == Numbered(rows, at, trail[1..], digit)
  {
    RowOfDrawn(lines, current, rows, at, trail[0]);
  }

  lemma NoDigitFor(at: Located, lines: seq<Line>, digit: nat, otherwise: Option<nat>)
    requires digit <= DIGITS
    ensures DigitFor(at, Filter(IsDrawn(lines), []), digit, otherwise) == otherwise
  {
  }

  lemma {:induction false} NumberedGives(lines: seq<Line>, current: Located, rows: seq<Row>, at: seq<Located>,
          trail: seq<Located>, digit: nat, k: nat)
    requires Draws(lines, current, rows, at) && Distinct(Drawn(lines)) && current in Drawn(lines)
    requires digit < DIGITS && k < |lines| && lines[k].Session?
    ensures |rows| == |lines|
    ensures Numbered(rows, at, trail, digit)[k].number
         == DigitFor(lines[k].at, Filter(IsDrawn(lines), trail), digit, rows[k].number)
    decreases |trail|
  {
    hide Draws, Drawn, Numbered, Filter, DigitFor, Distinct;
    DrawsAll(lines, current, rows, at);
    if trail == [] {
      NumberedOfNone(rows, at, digit);
      NoDigitFor(lines[k].at, lines, digit, rows[k].number);
    } else {
      var was, rest := trail[0], trail[1..];
      FilterOfFirst(IsDrawn(lines), trail);
      if was !in Drawn(lines) {
        NumberedSkips(lines, current, rows, at, trail, digit);
        NumberedGives(lines, current, rows, at, rest, digit, k);
      } else {
        var marked := NumberedMarks(lines, current, rows, at, trail, digit, k);
        DigitAfter(lines[k].at, was, Filter(IsDrawn(lines), rest), digit, rows[k].number);
        DigitAfter(lines[k].at, was, Filter(IsDrawn(lines), rest), digit, marked[k].number);
        if digit + 1 < DIGITS { NumberedGives(lines, current, marked, at, rest, digit + 1, k); }
      }
    }
  }

  lemma DrawsAll(lines: seq<Line>, current: Located, rows: seq<Row>, at: seq<Located>)
    requires Draws(lines, current, rows, at)
    ensures |rows| == |lines|
  {
  }

  /** The sessions the digits are for: of those this run has been in, the first nine that are drawn at all. */
  function Counted(p: Picture, g: Table, focus: Option<string>, recent: seq<Located>): seq<Located>
    requires recent != []
  {
    Reached(Filter(IsDrawn(LinesFor(p, g, focus, recent[0])), recent), 0)
  }

  /**
    A row's digit is where its session last stands among those the digits are for,
    counting from one; a row whose session is not among them wears none. The
    session you are in is always the first of them.
   */
  lemma DigitsFollowTheTrail(p: Picture, g: Table, focus: Option<string>, recent: seq<Located>, k: nat)
    requires recent != [] && Distinct(Map(Addressed(), Known(p)))
    requires k < |LinesFor(p, g, focus, recent[0])|
    ensures |LinesFor(p, g, focus, recent[0])| == |Arranged(p, g, focus, recent)|
    ensures Counted(p, g, focus, recent) != [] && Counted(p, g, focus, recent)[0] == recent[0]
    ensures LinesFor(p, g, focus, recent[0])[k].Session? ==>
              Arranged(p, g, focus, recent)[k].number ==
              match LastPlace(LinesFor(p, g, focus, recent[0])[k].at, Counted(p, g, focus, recent))
              case Some(n) => Some(n + 1)
              case None => None
  {
    hide Draws, Drawn, Numbered, LinesFor, Known;
    var lines := LinesFor(p, g, focus, recent[0]);
    var at := AtOf(lines, recent[0]);
    var dimmed := Map(Dimmed(p, at, recent[0]), RowsOf(lines, recent[0]));
    RowsAreTheSessions(p, g, focus, recent[0]);
    CurrentIsShown(p, g, focus, recent[0]);
    StartsUnnumbered(p, lines, recent[0]);
    if lines[k].Session? {
      NumberedGives(lines, recent[0], dimmed, at, recent, 0, k);
    }
  }

  lemma CurrentIsShown(p: Picture, g: Table, focus: Option<string>, current: Located)
    ensures current in Drawn(LinesFor(p, g, focus, current))
  {
    CurrentIsDrawn(Showing(p, g, focus), current, focus);
  }

  lemma StartsUnnumbered(p: Picture, lines: seq<Line>, current: Located)
    ensures var at := AtOf(lines, current);
            var rows := Map(Dimmed(p, at, current), RowsOf(lines, current));
            Draws(lines, current, rows, at) && forall k | 0 <= k < |rows| :: rows[k].number == None
  {
    forall k | 0 <= k < |lines| ensures RowsOf(lines, current)[k].number == None {
      RowAt(lines, current, k);
    }
  }

  ghost predicate IsWorn(p: Picture, g: Table, focus: Option<string>, recent: seq<Located>, digit: nat)
    requires recent != []
  {
    exists k :: 0 <= k < |Arranged(p, g, focus, recent)| && !Arranged(p, g, focus, recent)[k].heading
      && Arranged(p, g, focus, recent)[k].number == Some(digit)
  }

  /** A digit is on a row exactly when that many are counted and its session is not counted again further on. */
  lemma DigitIsWornExactlyWhen(p: Picture, g: Table, focus: Option<string>, recent: seq<Located>, digit: nat)
    requires recent != [] && Distinct(Map(Addressed(), Known(p)))
    ensures IsWorn(p, g, focus, recent, digit) <==>
            var counted := Counted(p, g, focus, recent);
            1 <= digit <= |counted| && counted[digit - 1] !in counted[digit..]
  {
    hide Drawn, Arranged, LinesFor, Known, Counted;
    var rows := Arranged(p, g, focus, recent);
    RowsAreLines(p, g, focus, recent);
    if IsWorn(p, g, focus, recent, digit) {
      var k :| 0 <= k < |rows| && !rows[k].heading && rows[k].number == Some(digit);
      DigitsFollowTheTrail(p, g, focus, recent, k);
      NothingAfterLast(LinesFor(p, g, focus, recent[0])[k].at, Counted(p, g, focus, recent));
    }
    var counted := Counted(p, g, focus, recent);
    if 1 <= digit <= |counted| && counted[digit - 1] !in counted[digit..] {
      LastOfItsSessionIsWorn(p, g, focus, recent, digit);
    }
  }

  lemma LastOfItsSessionIsWorn(p: Picture, g: Table, focus: Option<string>, recent: seq<Located>, digit: nat)
    requires recent != [] && Distinct(Map(Addressed(), Known(p)))
    requires var counted := Counted(p, g, focus, recent); 1 <= digit <= |counted| && counted[digit - 1] !in counted[digit..]
    ensures IsWorn(p, g, focus, recent, digit)
  {
    hide Drawn, Arranged, LinesFor, Known, Counted;
    var lines, rows := LinesFor(p, g, focus, recent[0]), Arranged(p, g, focus, recent);
    var counted := Counted(p, g, focus, recent);
    RowsAreLines(p, g, focus, recent);
    CountedAreDrawn(p, g, focus, recent, digit - 1);
    DrawnAt(lines, counted[digit - 1]);
    var k :| 0 <= k < |lines| && lines[k].Session? && lines[k].at == counted[digit - 1];
    DigitsFollowTheTrail(p, g, focus, recent, k);
    LastPlaceIs(counted[digit - 1], counted, digit - 1);
    assert !rows[k].heading && rows[k].number == Some(digit);
  }

  lemma CountedAreDrawn(p: Picture, g: Table, focus: Option<string>, recent: seq<Located>, i: nat)
    requires recent != [] && i < |Counted(p, g, focus, recent)|
    ensures Counted(p, g, focus, recent)[i] in Drawn(LinesFor(p, g, focus, recent[0]))
  {
    hide Drawn, LinesFor;
    var keep := IsDrawn(LinesFor(p, g, focus, recent[0]));
    FilterHolds(keep, recent, Counted(p, g, focus, recent)[i]);
    assert Filter(keep, recent)[i] in Filter(keep, recent);
  }

  /** Every row is its line's, whatever it looks like. */
  lemma RowsAreLines(p: Picture, g: Table, focus: Option<string>, recent: seq<Located>)
    requires recent != []
    ensures |Arranged(p, g, focus, recent)| == |LinesFor(p, g, focus, recent[0])|
    ensures forall k | 0 <= k < |Arranged(p, g, focus, recent)| ::
              Arranged(p, g, focus, recent)[k].heading <==> LinesFor(p, g, focus, recent[0])[k].Heading?
  {
    hide RowsOf, AtOf, Numbered, LinesFor;
    var lines := LinesFor(p, g, focus, recent[0]);
    OnlyTheLooksChange(p, lines, recent);
    forall k | 0 <= k < |lines| ensures Arranged(p, g, focus, recent)[k].heading <==> lines[k].Heading? {
      IdIsTheAddress(lines, recent[0], k);
      assert SameButLooks(Arranged(p, g, focus, recent)[k], RowsOf(lines, recent[0])[k]);
    }
  }

  /**
    The digits run from one without a gap exactly when none of the sessions they are
    for is counted twice: a repeat on the trail does no harm if it is not drawn, or
    is further along than the digits go.
   */
  lemma DigitsLeaveNoGap(p: Picture, g: Table, focus: Option<string>, recent: seq<Located>)
    requires recent != [] && Distinct(Map(Addressed(), Known(p)))
    ensures (forall digit | 1 <= digit <= |Counted(p, g, focus, recent)| :: IsWorn(p, g, focus, recent, digit))
            <==> Distinct(Counted(p, g, focus, recent))
  {
    hide IsWorn, Counted;
    var counted := Counted(p, g, focus, recent);
    forall digit | 1 <= digit <= |counted|
      ensures IsWorn(p, g, focus, recent, digit) <==> counted[digit - 1] !in counted[digit..]
    {
      DigitIsWornExactlyWhen(p, g, focus, recent, digit);
    }
    if forall digit | 1 <= digit <= |counted| :: IsWorn(p, g, focus, recent, digit) {
      forall i, j | 0 <= i < j < |counted| ensures counted[i] != counted[j] {
        assert IsWorn(p, g, focus, recent, i + 1);
        assert counted[i + 1..][j - i - 1] == counted[j];
      }
    }
  }

  lemma NumberedOfNone(rows: seq<Row>, at: seq<Located>, digit: nat)
    ensures Numbered(rows, at, [], digit) == rows
  {
  }

  // ----- Which rows a command can act on -----

  /**
    A row can be acted on exactly when its session is the one you are in, is in the
    newest listing, or is on the machine you are on; and the note at its right says
    which: the mark, nothing, or what is missing.
   */
  lemma ReachableExactlyWhen(p: Picture, g: Table, focus: Option<string>, recent: seq<Located>, k: nat)
    requires recent != [] && k < |LinesFor(p, g, focus, recent[0])| && LinesFor(p, g, focus, recent[0])[k].Session?
    ensures |Arranged(p, g, focus, recent)| == |LinesFor(p, g, focus, recent[0])|
    ensures var at, row := LinesFor(p, g, focus, recent[0])[k].at, Arranged(p, g, focus, recent)[k];
            var near := SameMachine(at.host, recent[0].host);
            && row.available == (at == recent[0] || InNewest(p, at) || near)
            && row.note == (if at == recent[0] then Here else if InNewest(p, at) then Said
                            else if near then Cached else NotAvailable)
  {
    hide LinesFor, RowsOf, AtOf, Numbered, Available, InNewest;
    var lines := LinesFor(p, g, focus, recent[0]);
    var rows, at := RowsOf(lines, recent[0]), AtOf(lines, recent[0]);
    IdIsTheAddress(lines, recent[0], k);
    RowAt(lines, recent[0], k);
    NumberedChangesLooks(Map(Dimmed(p, at, recent[0]), rows), at, recent, 0);
    AvailableIsInNewest(p, lines[k].at);
  }

  /** A row of the newest listing is at an address. */
  ghost predicate InNewest(p: Picture, at: Located) {
    exists row :: row in p.sessions && row.host == at.host && row.session.name == at.session
  }

  lemma AvailableIsInNewest(p: Picture, at: Located)
    ensures Available(p, at) <==> InNewest(p, at)
  {
    if row :| row in p.sessions && row.host == at.host && row.session.name == at.session {
      var i :| 0 <= i < |p.sessions| && p.sessions[i] == row;
      assert At(p.sessions[i]) == at;
    }
    if i :| 0 <= i < |p.sessions| && At(p.sessions[i]) == at { assert p.sessions[i] in p.sessions; }
  }

  // ----- The rows handed to the popup -----

  /** The heading a row is under: the nearest above it. */
  function AboveRow(rows: seq<Row>, k: nat): Option<string>
    requires k <= |rows|
  {
    if k == 0 then None
    else if rows[k - 1].heading then Some(rows[k - 1].text)
    else AboveRow(rows, k - 1)
  }

  lemma {:induction false} RowIsUnderItsLine(lines: seq<Line>, rows: seq<Row>, k: nat)
    requires k <= |lines| == |rows|
    requires forall i | 0 <= i < k :: rows[i].heading == lines[i].Heading? && (lines[i].Heading? ==> rows[i].text == lines[i].text)
    ensures AboveRow(rows, k) == Above(lines, k)
  {
    if k > 0 { RowIsUnderItsLine(lines, rows, k - 1); }
  }

  /**
    In the rows a listing hands over, each you can land on shows the session its id
    stands for, under the heading of that session's machine.
   */
  lemma EveryRowStands(p: Picture, g: Table, focus: Option<string>, recent: seq<Located>, k: nat)
    requires recent != [] && k < |Arranged(p, g, focus, recent)|
    ensures var rows, table := Arranged(p, g, focus, recent), AtOf(LinesFor(p, g, focus, recent[0]), recent[0]);
            !rows[k].heading ==>
              && rows[k].id < |table| && rows[k].text == table[rows[k].id].session
              && AboveRow(rows, k) == Some(table[rows[k].id].host)
  {
    hide RowsOf, AtOf, Numbered, Above, AboveRow, LinesFor;
    var lines, rows := LinesFor(p, g, focus, recent[0]), Arranged(p, g, focus, recent);
    OnlyTheLooksChange(p, lines, recent);
    forall i | 0 <= i < |lines|
      ensures rows[i].heading == lines[i].Heading? && (lines[i].Heading? ==> rows[i].text == lines[i].text)
    {
      IdIsTheAddress(lines, recent[0], i);
      assert SameButLooks(rows[i], RowsOf(lines, recent[0])[i]);
    }
    RowIsUnderItsLine(lines, rows, k);
    LineStands(p, g, focus, recent[0], k);
    IdIsTheAddress(lines, recent[0], k);
    assert SameButLooks(rows[k], RowsOf(lines, recent[0])[k]);
  }

  lemma LineStands(p: Picture, g: Table, focus: Option<string>, current: Located, k: nat)
    requires k < |LinesFor(p, g, focus, current)|
    ensures var lines := LinesFor(p, g, focus, current);
            lines[k].Session? ==> Above(lines, k) == Some(lines[k].at.host)
  {
    hide LinesFor, Showing;
    EverySessionStands(p, g, focus, current);
  }
}
