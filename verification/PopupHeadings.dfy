/** How often the popup heads a machine, over src/client/listed.rs:341-415. */
module PopupHeadings {
  import opened Groups
  import opened Lists
  import opened Popup
  import opened PopupTree
  import opened RowIds
  import opened Sessions
  import opened Snapshots
  import opened Text
  import opened Wrappers

  // ----- Where a machine is headed -----

  /** A machine's heading, and the group's section it is in if it is in one. */
  datatype Place = Place(section: Option<string>, machine: string)

  function PlaceAt(lines: seq<Line>, i: nat): Place
    requires i < |lines| && lines[i].Heading?
  {
    Place(if lines[i].indent == 0 then None else Section(lines, i), lines[i].text)
  }

  /** Where machines are headed: a machine's heading is right above a session, and a group's is not. */
  function Places(lines: seq<Line>): seq<Place> {
    if |lines| < 2 then []
    else
      var n := |lines| - 2;
      Places(lines[..n + 1]) + if lines[n].Heading? && lines[n + 1].Session? then [PlaceAt(lines, n)] else []
  }

  lemma PlacesOneMore(lines: seq<Line>, last: Line)
    ensures Places(lines + [last]) ==
            Places(lines)
            + if lines != [] && lines[|lines| - 1].Heading? && last.Session? then [PlaceAt(lines, |lines| - 1)] else []
  {
    hide *;
    var more := lines + [last];
    if lines == [] {
      NoPlaces(lines);
      NoPlaces(more);
    } else {
      var n := |lines| - 1;
      PlacesUpTo(more);
      assert more[..n + 1] == lines && more[n] == lines[n] && more[n + 1] == last;
      if lines[n].Heading? { PlaceInFront(lines, last); }
    }
  }

  lemma NoPlaces(lines: seq<Line>)
    requires |lines| < 2
    ensures Places(lines) == []
  {
  }

  lemma PlacesUpTo(lines: seq<Line>)
    requires |lines| >= 2
    ensures var n := |lines| - 2;
            Places(lines) ==
            Places(lines[..n + 1]) + if lines[n].Heading? && lines[n + 1].Session? then [PlaceAt(lines, n)] else []
  {
    hide PlaceAt;
  }

  lemma PlaceInFront(lines: seq<Line>, last: Line)
    requires lines != [] && lines[|lines| - 1].Heading?
    ensures PlaceAt(lines + [last], |lines| - 1) == PlaceAt(lines, |lines| - 1)
  {
    hide Section;
    AboveInFront(lines, [last], |lines| - 1);
  }

  lemma {:induction false} Opened(lines: seq<Line>, i: nat)
    requires 0 < i <= |lines| && lines[0].Heading? && lines[0].indent == 0
    ensures Section(lines, i).Some?
  {
    if i > 1 { Opened(lines, i - 1); }
  }

  /** What begins with a section's heading has its own places, whatever is in front of it. */
  lemma {:induction false} PlacesOfConcat(a: seq<Line>, b: seq<Line>)
    requires b != [] ==> b[0].Heading? && b[0].indent == 0
    ensures Places(a + b) == Places(a) + Places(b)
    decreases |b|
  {
    hide *;
    if b == [] {
      assert a + b == a;
      NoPlaces(b);
    } else {
      var n := |b| - 1;
      PlacesOfConcat(a, b[..n]);
      OneMoreAfter(a, b[..n], b[n]);
      LastApart(a, b);
    }
  }

  lemma LastApart(a: seq<Line>, b: seq<Line>)
    requires b != []
    ensures var n := |b| - 1; b == b[..n] + [b[n]] && a + b == a + b[..n] + [b[n]]
  {
  }

  lemma OneMoreAfter(a: seq<Line>, before: seq<Line>, last: Line)
    requires Places(a + before) == Places(a) + Places(before)
    requires var first := if before == [] then last else before[0]; first.Heading? && first.indent == 0
    ensures Places(a + before + [last]) == Places(a) + Places(before + [last])
  {
    hide *;
    PlacesOneMore(a + before, last);
    PlacesOneMore(before, last);
    if before != [] {
      var n := |before| - 1;
      assert (a + before)[|a + before| - 1] == before[n] && |a + before| - 1 == |a| + n;
      if before[n].Heading? { SamePlace(a, before, n); }
    }
  }

  lemma SamePlace(a: seq<Line>, b: seq<Line>, i: nat)
    requires i < |b| && b[i].Heading? && b[0].Heading? && b[0].indent == 0
    ensures PlaceAt(a + b, |a| + i) == PlaceAt(b, i)
  {
    AboveInConcat(a, b, i);
    if i > 0 { Opened(b, i); }
  }

  // ----- One section -----

  /** The headings of a run, which are all of machines. */
  function Headings(lines: seq<Line>): seq<string> {
    if lines == [] then []
    else
      Headings(lines[..|lines| - 1])
      + match lines[|lines| - 1] case Heading(text, _) => [text] case Session(_, _) => []
  }

  predicate ByMachine(run: seq<Placed>) {
    forall i, j | 0 <= i < j < |run| :: AtMost(run[i].row.host, run[j].row.host)
  }

  /** The machine of the last of a run, where it is not the one before it. */
  function HostAsHeading(run: seq<Placed>): seq<string>
    requires run != []
  {
    var n := |run| - 1;
    if n > 0 && run[n - 1].row.host == run[n].row.host then [] else [run[n].row.host]
  }

  ghost predicate IsHost(text: string, run: seq<Placed>) {
    exists i :: 0 <= i < |run| && run[i].row.host == text
  }

  /** The headings of a run whose machines come in order: each of its machines, once. */
  lemma {:induction false} MachinesHeadedOnce(run: seq<Placed>, indent: nat)
    requires ByMachine(run)
    ensures Distinct(Headings(Runs(run, indent)))
    ensures forall text :: text in Headings(Runs(run, indent)) <==> IsHost(text, run)
    decreases |run|
  {
    if run == [] {
      assert Headings(Runs(run, indent)) == [];
    } else {
      hide Runs, Headings;
      var n := |run| - 1;
      MachinesHeadedOnce(run[..n], indent);
      HeadingsOfOneMore(run, indent);
      NextMachine(run, Headings(Runs(run[..n], indent)));
    }
  }

  /** Machines in order: one that is not the last one before it has not been before at all. */
  lemma NextMachine(run: seq<Placed>, texts: seq<string>)
    requires ByMachine(run) && run != [] && Distinct(texts)
    requires forall text :: text in texts <==> IsHost(text, run[..|run| - 1])
    ensures var n := |run| - 1;
            var after := texts + HostAsHeading(run);
            Distinct(after) && forall text :: text in after <==> IsHost(text, run)
  {
    hide AtMost, IsHost, ByMachine;
    var n := |run| - 1;
    var host := run[n].row.host;
    LastHost(run);
    if n > 0 && run[n - 1].row.host == host {
      LastHost(run[..n]);
    } else {
      NotBefore(run);
      DistinctOneMore(texts, host);
    }
  }

  /** The machines of a run are those of all but its last, and the last's. */
  lemma LastHost(run: seq<Placed>)
    requires run != []
    ensures forall text :: IsHost(text, run) <==> text == run[|run| - 1].row.host || IsHost(text, run[..|run| - 1])
  {
    var n := |run| - 1;
    forall text ensures IsHost(text, run) <==> text == run[n].row.host || IsHost(text, run[..n]) {
      if text == run[n].row.host { assert IsHost(text, run); }
      if IsHost(text, run[..n]) {
        var i :| 0 <= i < n && run[..n][i].row.host == text;
        assert run[i].row.host == text;
      }
      if IsHost(text, run) {
        var i :| 0 <= i < |run| && run[i].row.host == text;
        assert i < n ==> run[..n][i].row.host == text;
      }
    }
  }

  lemma NotBefore(run: seq<Placed>)
    requires run != [] && ByMachine(run)
    requires |run| > 1 ==> run[|run| - 2].row.host != run[|run| - 1].row.host
    ensures !IsHost(run[|run| - 1].row.host, run[..|run| - 1])
  {
    hide AtMost;
    var n := |run| - 1;
    if i :| 0 <= i < n && run[..n][i].row.host == run[n].row.host {
      assert AtMost(run[n - 1].row.host, run[n].row.host);
      assert i < n - 1 ==> AtMost(run[i].row.host, run[n - 1].row.host);
      AtMostIsTotal(run[i].row.host, run[n - 1].row.host);
    }
  }

  lemma HeadingsOfOneMore(run: seq<Placed>, indent: nat)
    requires run != []
    ensures var n := |run| - 1;
            Headings(Runs(run, indent)) ==
            Headings(Runs(run[..n], indent)) + HostAsHeading(run)
  {
    var before, heading := Runs(run[..|run| - 1], indent), MachineHeading(run, indent);
    var last := Session(At(run[|run| - 1].row), indent + 1);
    var lines := Runs(run, indent);
    assert lines == before + heading + [last];
    assert lines[..|lines| - 1] == before + heading;
    if heading != [] { assert (before + heading)[..|before|] == before; } else { assert before + heading == before; }
  }

  function In(section: Option<string>): string -> Place {
    (machine: string) => Place(section, machine)
  }

  /** The heading of the section a group's sessions are in; sessions in none are in no section. */
  function Named(group: Option<string>): (section: Option<string>) {
    match group case Some(name) => Some("@" + name) case None => None
  }

  function Front(group: Option<string>): seq<Line> {
    match group case Some(name) => [Heading("@" + name, 0)] case None => []
  }

  function Deep(group: Option<string>): nat {
    if group.Some? then 1 else 0
  }

  /** A section begun and some of its run drawn: what the next heading in it is in. */
  lemma SectionGoesOn(group: Option<string>, run: seq<Placed>)
    ensures var lines := Front(group) + Runs(run, Deep(group));
            group.Some? ==> Section(lines, |lines|) == Named(group)
  {
    hide Runs;
    if group.Some? {
      var head: seq<Line>, lines := Front(group), Runs(run, 1);
      if run == [] {
        RunsOfNone(1);
        assert head + lines == head;
      } else {
        RunsAreNotEmpty(run, 1);
        RunStands(run, 1, 0);
        AboveInConcat(head, lines, |lines|);
      }
      assert Section(head, 1) == Named(group);
    }
  }

  lemma RunsEndInASession(run: seq<Placed>, indent: nat)
    requires run != []
    ensures var lines := Runs(run, indent); lines != [] && lines[|lines| - 1].Session?
  {
  }

  lemma {:induction false} PlacesOfRun(group: Option<string>, run: seq<Placed>)
    ensures Places(Front(group) + Runs(run, Deep(group))) == Map(In(Named(group)), Headings(Runs(run, Deep(group))))
    decreases |run|
  {
    hide *;
    if run == [] {
      FrontHeadsNothing(group);
    } else {
      PlacesOfRun(group, run[..|run| - 1]);
      OneMoreOfRun(group, run);
      HeadingsOfOneMore(run, Deep(group));
      MapTogether(In(Named(group)), Headings(Runs(run[..|run| - 1], Deep(group))), HostAsHeading(run));
    }
  }

  lemma MapTogether<T, U>(f: T -> U, a: seq<T>, b: seq<T>)
    ensures Map(f, a + b) == Map(f, a) + Map(f, b)
  {
  }

  lemma FrontHeadsNothing(group: Option<string>)
    ensures Places(Front(group) + Runs([], Deep(group))) == Map(In(Named(group)), Headings(Runs([], Deep(group))))
  {
    RunsOfNone(Deep(group));
    NoPlaces(Front(group));
    hide Runs, Places;
    assert Front(group) + [] == Front(group);
    assert Headings([]) == [];
  }

  lemma OneMoreOfRun(group: Option<string>, run: seq<Placed>)
    requires run != []
    ensures Places(Front(group) + Runs(run, Deep(group))) ==
            Places(Front(group) + Runs(run[..|run| - 1], Deep(group))) + Map(In(Named(group)), HostAsHeading(run))
  {
    hide *;
    var n := |run| - 1;
    var before, heading := Front(group) + Runs(run[..n], Deep(group)), MachineHeading(run, Deep(group));
    var last := Session(At(run[n].row), Deep(group) + 1);
    LastOfTheRun(group, run);
    if n > 0 { RunsEndInASession(run[..n], Deep(group)); }
    SectionGoesOn(group, run[..n]);
    HeadingOfHost(group, run);
    PlacesOfOne(before, heading, last);
    PlacesOfOneText(Named(group), run[n].row.host);
  }

  lemma LastOfTheRun(group: Option<string>, run: seq<Placed>)
    requires run != []
    ensures var n := |run| - 1;
            Front(group) + Runs(run, Deep(group)) ==
            Front(group) + Runs(run[..n], Deep(group)) + MachineHeading(run, Deep(group))
            + [Session(At(run[n].row), Deep(group) + 1)]
  {
    hide *;
    RunsOneMore(run, Deep(group));
    var n := |run| - 1;
    Regrouped(Front(group), Runs(run[..n], Deep(group)), MachineHeading(run, Deep(group)),
              [Session(At(run[n].row), Deep(group) + 1)]);
  }

  lemma Regrouped(a: seq<Line>, b: seq<Line>, c: seq<Line>, d: seq<Line>)
    ensures a + (b + c + d) == a + b + c + d
  {
  }

  lemma HeadingOfHost(group: Option<string>, run: seq<Placed>)
    requires run != []
    ensures Deep(group) == 0 <==> group == None
    ensures Named(None) == None
    ensures var heading, more := MachineHeading(run, Deep(group)), HostAsHeading(run);
            && (heading == [] <==> more == []) && (heading == [] ==> |run| > 1)
            && (heading != [] ==> more == [run[|run| - 1].row.host] && heading == [Heading(more[0], Deep(group))])
  {
  }

  lemma PlacesOfOneText(section: Option<string>, machine: string)
    ensures Map(In(section), [machine]) == [Place(section, machine)] && Map(In(section), []) == []
  {
  }

  lemma PlacesOfOne(before: seq<Line>, heading: seq<Line>, last: Line)
    requires last.Session? && |heading| <= 1
    requires heading == [] ==> before != [] && before[|before| - 1].Session?
    requires heading != [] ==> heading[0].Heading?
    ensures Places(before + heading + [last]) ==
            Places(before)
            + if heading == [] then []
              else [Place(if heading[0].indent == 0 then None else Section(before, |before|), heading[0].text)]
  {
    hide Places;
    if heading == [] {
      assert before + heading == before;
      PlacesOneMore(before, last);
    } else {
      assert heading == [heading[0]];
      PlacesOneMore(before, heading[0]);
      PlacesOneMore(before + heading, last);
      AboveInFront(before, heading, |before|);
    }
  }

  // ----- All sections -----

  /** Some session shown is in a group, or in none, on a machine. */
  ghost predicate Has(showing: seq<Placed>, group: Option<string>, machine: string) {
    exists s :: s in showing && s.group == group && s.row.host == machine
  }

  lemma HostsOfGroup(showing: seq<Placed>, group: Option<string>, machine: string)
    ensures IsHost(machine, Filter(InGroup(group), showing)) <==> Has(showing, group, machine)
  {
    var run := Filter(InGroup(group), showing);
    FilterKeeps(InGroup(group), showing);
    if IsHost(machine, run) {
      var i :| 0 <= i < |run| && run[i].row.host == machine;
      assert run[i] in run;
    }
    if Has(showing, group, machine) {
      var s :| s in showing && s.group == group && s.row.host == machine;
      assert s in run;
      var i :| 0 <= i < |run| && run[i] == s;
    }
  }

  function SectionLines(showing: seq<Placed>, group: Option<string>): seq<Line> {
    Front(group) + Runs(Filter(InGroup(group), showing), Deep(group))
  }

  lemma PlacesOfSection(showing: seq<Placed>, group: Option<string>)
    requires ByMachine(showing)
    ensures Distinct(Places(SectionLines(showing, group)))
    ensures forall q :: q in Places(SectionLines(showing, group)) <==>
              q.section == Named(group) && Has(showing, group, q.machine)
  {
    hide Places, Runs, Headings, Filter, Named, Has;
    var run := Filter(InGroup(group), showing);
    GroupByMachine(showing, group);
    MachinesHeadedOnce(run, Deep(group));
    PlacesOfRun(group, run);
    var texts := Headings(Runs(run, Deep(group)));
    var places := Map(In(Named(group)), texts);
    forall q ensures q in places <==> q.section == Named(group) && Has(showing, group, q.machine) {
      HostsOfGroup(showing, group, q.machine);
      if q in places {
        var i :| 0 <= i < |places| && places[i] == q;
        assert texts[i] in texts;
      }
      if q.machine in texts {
        var i :| 0 <= i < |texts| && texts[i] == q.machine;
        assert places[i] == Place(Named(group), q.machine);
      }
    }
  }

  lemma GroupByMachine(showing: seq<Placed>, group: Option<string>)
    requires ByMachine(showing)
    ensures ByMachine(Filter(InGroup(group), showing))
  {
    hide AtMost;
    var inOrder := (a: Placed, b: Placed) => AtMost(a.row.host, b.row.host);
    assert Sorted(inOrder, showing);
    FilterOfSorted(inOrder, InGroup(group), showing);
    var run := Filter(InGroup(group), showing);
    assert forall i, j | 0 <= i < j < |run| :: inOrder(run[i], run[j]);
  }

  lemma PlacesTogether(a: seq<Line>, b: seq<Line>)
    requires b != [] ==> b[0].Heading? && b[0].indent == 0
    requires Distinct(Places(a)) && Distinct(Places(b)) && forall q | q in Places(a) :: q !in Places(b)
    ensures Distinct(Places(a + b))
    ensures forall q :: q in Places(a + b) <==> q in Places(a) || q in Places(b)
  {
    hide Places;
    PlacesOfConcat(a, b);
    var both := Places(a) + Places(b);
    forall i, j | 0 <= i < j < |both| ensures both[i] != both[j] {
      if i < |Places(a)| <= j {
        assert Places(a)[i] in Places(a);
        assert Places(b)[j - |Places(a)|] in Places(b);
      }
    }
  }

  lemma SectionBegins(showing: seq<Placed>, group: Option<string>)
    ensures var lines := SectionLines(showing, group); lines != [] ==> lines[0].Heading? && lines[0].indent == 0
  {
    hide Filter;
    if group.None? { RunBegins(Filter(InGroup(group), showing)); }
  }

  lemma {:induction false} RunBegins(run: seq<Placed>)
    ensures var lines := Runs(run, 0); lines != [] ==> lines[0].Heading? && lines[0].indent == 0
    decreases |run|
  {
    if run != [] { RunBegins(run[..|run| - 1]); }
  }

  ghost predicate AmongSections(q: Place, names: seq<string>, showing: seq<Placed>) {
    exists name :: name in names && q.section == Named(Some(name)) && Has(showing, Some(name), q.machine)
  }

  lemma {:induction false} PlacesOfGroups(names: seq<string>, showing: seq<Placed>)
    requires Distinct(names) && ByMachine(showing)
    ensures Distinct(Places(GroupLines(names, showing)))
    ensures forall q :: q in Places(GroupLines(names, showing)) <==> AmongSections(q, names, showing)
    decreases |names|
  {
    hide *;
    if names == [] {
      NoSections(showing);
    } else {
      var before, name := names[..|names| - 1], names[|names| - 1];
      ButOneAreDistinct(names);
      PlacesOfGroups(before, showing);
      PlacesOfSection(showing, Some(name));
      SectionsApart(Places(GroupLines(before, showing)), Places(SectionLines(showing, Some(name))), names, showing);
      LastSection(names, showing);
      SectionBegins(showing, Some(name));
      PlacesTogether(GroupLines(before, showing), SectionLines(showing, Some(name)));
    }
  }

  lemma NoSections(showing: seq<Placed>)
    ensures Distinct(Places(GroupLines([], showing)))
    ensures forall q :: q in Places(GroupLines([], showing)) <==> AmongSections(q, [], showing)
  {
    hide Has, Named;
  }

  lemma LastSection(names: seq<string>, showing: seq<Placed>)
    requires names != []
    ensures var before, name := names[..|names| - 1], names[|names| - 1];
            GroupLines(names, showing) == GroupLines(before, showing) + SectionLines(showing, Some(name))
  {
    hide Runs, Filter;
  }

  lemma ButOneAreDistinct(names: seq<string>)
    requires names != [] && Distinct(names)
    ensures Distinct(names[..|names| - 1]) && names[|names| - 1] !in names[..|names| - 1]
  {
  }

  lemma SectionsApart(a: seq<Place>, b: seq<Place>, names: seq<string>, showing: seq<Placed>)
    requires names != [] && names[|names| - 1] !in names[..|names| - 1]
    requires forall q :: q in a <==> AmongSections(q, names[..|names| - 1], showing)
    requires var name := names[|names| - 1];
             forall q :: q in b <==> q.section == Named(Some(name)) && Has(showing, Some(name), q.machine)
    ensures forall q | q in a :: q !in b
    ensures forall q :: q in a || q in b <==> AmongSections(q, names, showing)
  {
    hide Named, Has;
    var before, name := names[..|names| - 1], names[|names| - 1];
    forall q | q in a ensures q !in b {
      var other :| other in before && q.section == Named(Some(other)) && Has(showing, Some(other), q.machine);
      NamedApart(other, name);
    }
    forall q ensures q in a || q in b <==> AmongSections(q, names, showing) {
      AmongOneMore(q, names, showing);
    }
  }

  lemma NamedApart(a: string, b: string)
    ensures Named(Some(a)) == Named(Some(b)) <==> a == b
  {
    assert ("@" + a)[1..] == a && ("@" + b)[1..] == b;
  }

  lemma AmongOneMore(q: Place, names: seq<string>, showing: seq<Placed>)
    requires names != []
    ensures var before, name := names[..|names| - 1], names[|names| - 1];
            AmongSections(q, names, showing) <==>
            AmongSections(q, before, showing) || (q.section == Named(Some(name)) && Has(showing, Some(name), q.machine))
  {
    hide Named, Has;
    var before, name := names[..|names| - 1], names[|names| - 1];
    assert forall other :: other in names <==> other in before || other == name;
  }

  /** Of the listing itself: each machine is headed once wherever it has a session. */
  lemma PlacesOfListing(showing: seq<Placed>)
    requires ByMachine(showing)
    ensures Distinct(Places(Lines(showing)))
    ensures forall q :: q in Places(Lines(showing)) <==>
              exists group :: q.section == Named(group) && Has(showing, group, q.machine)
  {
    var names := GroupsSeen(showing);
    assert SectionLines(showing, None) == Runs(Filter(InGroup(None), showing), 0);
    hide Places, GroupLines, SectionLines, ByMachine, Runs, Filter, GroupsSeen;
    GroupsSeenAreTheGroups(showing);
    PlacesOfGroups(names, showing);
    PlacesOfSection(showing, None);
    SectionBegins(showing, None);
    forall q | q in Places(GroupLines(names, showing)) ensures q !in Places(SectionLines(showing, None)) {
      assert AmongSections(q, names, showing);
    }
    PlacesTogether(GroupLines(names, showing), SectionLines(showing, None));
    forall q
      ensures AmongSections(q, names, showing) || (q.section == None && Has(showing, None, q.machine)) <==>
              exists group :: q.section == Named(group) && Has(showing, group, q.machine)
    {
      SomeSection(q, names, showing);
    }
  }

  lemma SomeSection(q: Place, names: seq<string>, showing: seq<Placed>)
    requires forall s | s in showing && s.group.Some? :: s.group.value in names
    ensures AmongSections(q, names, showing) || (q.section == None && Has(showing, None, q.machine)) <==>
            exists group :: q.section == Named(group) && Has(showing, group, q.machine)
  {
    if AmongSections(q, names, showing) {
      var name :| name in names && q.section == Named(Some(name)) && Has(showing, Some(name), q.machine);
    }
    if q.section == None && Has(showing, None, q.machine) { assert q.section == Named(None); }
    if group :| q.section == Named(group) && Has(showing, group, q.machine) {
      if group.Some? {
        var s :| s in showing && s.group == group && s.row.host == q.machine;
        assert s.group.value in names;
      }
    }
  }

  // ----- And of the rows handed to the popup -----

  /** The section a row is in, and where machines are headed, read off the rows alone. */
  function SectionRow(rows: seq<Row>, k: nat): Option<string>
    requires k <= |rows|
  {
    if k == 0 then None
    else if rows[k - 1].heading && rows[k - 1].indent == 0 then Some(rows[k - 1].text)
    else SectionRow(rows, k - 1)
  }

  function RowPlaces(rows: seq<Row>): seq<Place> {
    if |rows| < 2 then []
    else
      var n := |rows| - 2;
      RowPlaces(rows[..n + 1])
      + if rows[n].heading && !rows[n + 1].heading then
          [Place(if rows[n].indent == 0 then None else SectionRow(rows, n), rows[n].text)]
        else []
  }

  /** Rows that head what some lines head. */
  predicate HeadAlike(rows: seq<Row>, lines: seq<Line>) {
    |rows| == |lines| &&
    forall i | 0 <= i < |rows| ::
      && rows[i].heading == lines[i].Heading?
      && (lines[i].Heading? ==> rows[i].text == lines[i].text && rows[i].indent == lines[i].indent)
  }

  lemma {:induction false} SectionsAlike(rows: seq<Row>, lines: seq<Line>, k: nat)
    requires HeadAlike(rows, lines) && k <= |rows|
    ensures SectionRow(rows, k) == Section(lines, k)
  {
    if k > 0 { SectionsAlike(rows, lines, k - 1); }
  }

  lemma {:induction false} PlacesAlike(rows: seq<Row>, lines: seq<Line>)
    requires HeadAlike(rows, lines)
    ensures RowPlaces(rows) == Places(lines)
    decreases |rows|
  {
    if |rows| >= 2 {
      var n := |rows| - 2;
      PlacesAlike(rows[..n + 1], lines[..n + 1]);
      SectionsAlike(rows, lines, n);
    }
  }

  lemma ArrangedHeadsAlike(p: Picture, g: Table, focus: Option<string>, recent: seq<Located>)
    requires recent != []
    ensures HeadAlike(Arranged(p, g, focus, recent), LinesFor(p, g, focus, recent[0]))
  {
    hide RowsOf, AtOf, Numbered, LinesFor;
    var lines, rows := LinesFor(p, g, focus, recent[0]), Arranged(p, g, focus, recent);
    OnlyTheLooksChange(p, lines, recent);
    forall i | 0 <= i < |lines|
      ensures rows[i].heading == lines[i].Heading?
      ensures lines[i].Heading? ==> rows[i].text == lines[i].text && rows[i].indent == lines[i].indent
    {
      IdIsTheAddress(lines, recent[0], i);
      assert SameButLooks(rows[i], RowsOf(lines, recent[0])[i]);
    }
  }

  lemma ShowingByMachine(p: Picture, g: Table, focus: Option<string>)
    requires Sorted(ByAge(), Known(p))
    ensures ByMachine(Showing(p, g, focus))
  {
    hide Filter, Known, AtMost;
    var placed := Map(WithGroup(g), Known(p));
    var inOrder := (a: Placed, b: Placed) => AtMost(a.row.host, b.row.host);
    forall i, j | 0 <= i < j < |placed| ensures inOrder(placed[i], placed[j]) {
      assert ByAge()(Known(p)[i], Known(p)[j]);
    }
    assert Sorted(inOrder, placed);
    FilterOfSorted(inOrder, InFocus(focus), placed);
    var showing := Showing(p, g, focus);
    assert forall i, j | 0 <= i < j < |showing| :: inOrder(showing[i], showing[j]);
  }

  /** The heading that the row added for the session you are in comes with. */
  lemma PlacesOfLinesFor(p: Picture, g: Table, focus: Option<string>, current: Located)
    requires Sorted(ByAge(), Known(p))
    ensures var showing := Showing(p, g, focus);
            var listed := Places(Lines(showing));
            && Distinct(listed)
            && (Shows(p, g, focus, current) ==> Places(LinesFor(p, g, focus, current)) == listed)
            && (!Shows(p, g, focus, current) ==>
                  exists q: Place ::
                    && Places(LinesFor(p, g, focus, current)) == listed + [q] && q.machine == current.host
                    && (q in listed <==> Has(showing, focus, current.host)))
  {
    hide Places, Lines, Showing, Known, Has, Map, Drawn, ByMachine;
    var showing := Showing(p, g, focus);
    var lines := Lines(showing);
    ShowingByMachine(p, g, focus);
    PlacesOfListing(showing);
    ShownAreDrawn(showing, current);
    if !Shows(p, g, focus, current) {
      LastStandsApart(p, g, focus, current);
      var heading, last := Heading(current.host, Deep(focus)), Session(current, Deep(focus) + 1);
      assert LinesFor(p, g, focus, current) == lines + [heading] + [last];
      PlacesOfOne(lines, [heading], last);
      var q := Place(if focus.None? then None else Section(lines, |lines|), current.host);
      AddedPlace(p, g, focus, q);
    }
  }

  lemma AddedPlace(p: Picture, g: Table, focus: Option<string>, q: Place)
    requires var lines := Lines(Showing(p, g, focus)); q.section == if focus.None? then None else Section(lines, |lines|)
    requires Sorted(ByAge(), Known(p))
    ensures var showing := Showing(p, g, focus); q in Places(Lines(showing)) <==> Has(showing, focus, q.machine)
  {
    hide Places, Lines, Showing, Known, ByMachine, Section;
    var showing := Showing(p, g, focus);
    ShowingByMachine(p, g, focus);
    PlacesOfListing(showing);
    if focus.Some? {
      SectionOfFocus(p, g, focus.value);
      OnlyTheFocus(p, g, focus.value);
    }
    assert showing != [] || focus.None? ==> q.section == Named(focus);
    if group :| q.section == Named(group) && Has(showing, group, q.machine) {
      var s :| s in showing && s.group == group && s.row.host == q.machine;
      if group.Some? && focus.Some? { NamedApart(group.value, focus.value); }
    }
    if Has(showing, focus, q.machine) {
      var s :| s in showing && s.group == focus && s.row.host == q.machine;
      assert showing != [];
    }
  }

  /**
    With the cache in listing order, which `KnownIsTheLastAnswer` keeps, a machine is
    headed once in each group's section and once among the rest, in the rows handed
    over, exactly when the session you are in is shown, or nothing shown on its
    machine is where it is added: in the group narrowed to, or with no narrowing
    among the rest. Else its machine has the one heading there is too many.
   */
  lemma MachinesAreHeadedOnceExactlyWhen(p: Picture, g: Table, focus: Option<string>, recent: seq<Located>)
    requires recent != [] && Sorted(ByAge(), Known(p))
    ensures var places := RowPlaces(Arranged(p, g, focus, recent));
            && (Distinct(places) <==>
                  Shows(p, g, focus, recent[0]) || !Has(Showing(p, g, focus), focus, recent[0].host))
            && (!Distinct(places) ==>
                  places != [] && Distinct(places[..|places| - 1]) && places[|places| - 1].machine == recent[0].host)
  {
    hide Places, RowPlaces, Lines, LinesFor, Showing, Shows, Known, Has, Arranged, Distinct;
    ArrangedHeadsAlike(p, g, focus, recent);
    PlacesAlike(Arranged(p, g, focus, recent), LinesFor(p, g, focus, recent[0]));
    PlacesOfLinesFor(p, g, focus, recent[0]);
    var listed := Places(Lines(Showing(p, g, focus)));
    if !Shows(p, g, focus, recent[0]) {
      var q: Place :|
        && Places(LinesFor(p, g, focus, recent[0])) == listed + [q] && q.machine == recent[0].host
        && (q in listed <==> Has(Showing(p, g, focus), focus, recent[0].host));
      DistinctOneMore(listed, q);
    }
  }

  /** As in this listing of one session, of no group, when you are in another on its machine that is not listed yet. */
  lemma MachineCanBeHeadedTwice(row: HostedSession, current: Located)
    requires row.host == current.host && At(row) != current
    ensures !Distinct(RowPlaces(Arranged(Picture([row], [row], [row.host]), map[], None, [current])))
  {
    hide RowPlaces, Arranged, Distinct;
    var p := Picture([row], [row], [row.host]);
    OneShown(row);
    var showing := Showing(p, map[], None);
    assert showing[0] in showing;
    assert !Shows(p, map[], None, current);
    MachinesAreHeadedOnceExactlyWhen(p, map[], None, [current]);
  }

  lemma OneShown(row: HostedSession)
    ensures Showing(Picture([row], [row], [row.host]), map[], None) == [Placed(row, None)]
  {
    var placed := Map(WithGroup(map[]), [row]);
    assert placed == [Placed(row, None)];
    FilterAll(InFocus(None), placed);
  }

  lemma DistinctOneMore<T>(listed: seq<T>, q: T)
    requires Distinct(listed)
    ensures Distinct(listed + [q]) <==> q !in listed
    ensures (listed + [q])[..|listed|] == listed
  {
    var more := listed + [q];
    if q in listed {
      var i :| 0 <= i < |listed| && listed[i] == q;
      assert more[i] == more[|listed|];
    }
  }
}
