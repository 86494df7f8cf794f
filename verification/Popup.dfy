/**
  src/client/listed.rs, the popup's rows: the known sessions as a tree, groups
  first and whole, then what is in no group by machine.
 */
module Popup {
  import opened Groups
  import opened Lists
  import opened Names
  import opened RowIds
  import opened Sessions
  import opened Snapshots
  import opened Text
  import opened Wrappers

  // ----- What is drawn, in order -----

  /** A session that is going to be drawn, beside the group it is in. */
  datatype Placed = Placed(row: HostedSession, group: Option<string>)

  function Address(): Placed -> Located {
    (s: Placed) => At(s.row)
  }

  function WithGroup(g: Table): HostedSession -> Placed {
    (row: HostedSession) => Placed(row, GroupOf(g, MemberOfRow(row)))
  }

  function InFocus(focus: Option<string>): Placed -> bool {
    (s: Placed) => focus.None? || s.group == focus
  }

  function InGroup(group: Option<string>): Placed -> bool {
    (s: Placed) => s.group == group
  }

  function Showing(p: Picture, g: Table, focus: Option<string>): seq<Placed> {
    Filter(InFocus(focus), Map(WithGroup(g), Known(p)))
  }

  datatype Line = Heading(text: string, indent: nat) | Session(at: Located, indent: nat)

  /** The heading before the last of a run, where its machine is not the one before it. */
  function MachineHeading(run: seq<Placed>, indent: nat): seq<Line>
    requires run != []
  {
    var n := |run| - 1;
    if n > 0 && run[n - 1].row.host == run[n].row.host then [] else [Heading(run[n].row.host, indent)]
  }

  /** A run of sessions under a heading for each machine, where the machine changes. */
  function Runs(run: seq<Placed>, indent: nat): seq<Line> {
    if run == [] then []
    else
      var n := |run| - 1;
      Runs(run[..n], indent) + MachineHeading(run, indent) + [Session(At(run[n].row), indent + 1)]
  }

  /** The groups drawn, each where its first session appears. */
  function GroupsSeen(showing: seq<Placed>): seq<string> {
    if showing == [] then []
    else
      var n := |showing| - 1;
      var before := GroupsSeen(showing[..n]);
      match showing[n].group
      case Some(name) => if name in before then before else before + [name]
      case None => before
  }

  function GroupLines(names: seq<string>, showing: seq<Placed>): seq<Line> {
    if names == [] then []
    else
      var name := names[|names| - 1];
      GroupLines(names[..|names| - 1], showing)
      + [Heading("@" + name, 0)]
      + Runs(Filter(InGroup(Some(name)), showing), 1)
  }

  function Lines(showing: seq<Placed>): seq<Line> {
    GroupLines(GroupsSeen(showing), showing) + Runs(Filter(InGroup(None), showing), 0)
  }

  /** The sessions drawn, in the order they are drawn. */
  function Drawn(lines: seq<Line>): seq<Located> {
    if lines == [] then []
    else Drawn(lines[..|lines| - 1]) + match lines[|lines| - 1] case Session(at, _) => [at] case Heading(_, _) => []
  }

  /** The session you are in has a line whether or not any listing has it. */
  function AllLines(showing: seq<Placed>, current: Located, focus: Option<string>): seq<Line> {
    var lines := Lines(showing);
    var deep := if focus.Some? then 1 else 0;
    if current in Drawn(lines) then lines else lines + [Heading(current.host, deep), Session(current, deep + 1)]
  }

  // ----- Ids -----

  /** The id of the session you are in, in every listing. */
  const CURRENT: nat := 0

  /** What the ids of some lines stand for: the session you are in, then the others as they come. */
  function AtOf(lines: seq<Line>, current: Located): (at: seq<Located>)
    ensures |at| >= 1 && at[CURRENT] == current
  {
    if lines == [] then [current]
    else
      var n := |lines| - 1;
      AtOf(lines[..n], current)
      + if lines[n].Session? && lines[n].at != current then [lines[n].at] else []
  }

  function RowOf(line: Line, current: Located, next: nat): Row {
    match line
    case Heading(text, indent) => HeadingRow(text, indent)
    case Session(at, indent) =>
      var here := at == current;
      NewRow(if here then CURRENT else next, at.session).(indent := indent, note := if here then Here else Said)
  }

  function RowsOf(lines: seq<Line>, current: Located): (rows: seq<Row>)
    ensures |rows| == |lines|
  {
    if lines == [] then []
    else
      var n := |lines| - 1;
      RowsOf(lines[..n], current) + [RowOf(lines[n], current, |AtOf(lines[..n], current)|)]
  }

  method DrawSession(rows: seq<Row>, at: seq<Located>, hosted: HostedSession, current: Located, indent: nat,
          ghost lines: seq<Line>)
    returns (drawn: seq<Row>, ids: seq<Located>)
    requires rows == RowsOf(lines, current) && at == AtOf(lines, current)
    ensures drawn == RowsOf(lines + [Session(At(hosted), indent)], current)
    ensures ids == AtOf(lines + [Session(At(hosted), indent)], current)
  {
    ghost var more := lines + [Session(At(hosted), indent)];
    assert more[..|lines|] == lines;
    var here := current == Located(hosted.host, hosted.session.name);
    var row := NewRow(if here then CURRENT else |at|, hosted.session.name);
    drawn := rows + [row.(indent := indent, note := if here then Here else Said)];
    ids := if here then at else at + [Located(hosted.host, hosted.session.name)];
  }

  lemma OneMoreHeading(lines: seq<Line>, text: string, indent: nat, current: Located)
    ensures RowsOf(lines + [Heading(text, indent)], current) == RowsOf(lines, current) + [HeadingRow(text, indent)]
    ensures AtOf(lines + [Heading(text, indent)], current) == AtOf(lines, current)
  {
    assert (lines + [Heading(text, indent)])[..|lines|] == lines;
  }

  /** One run of sessions, a heading where the machine changes. */
  method DrawRun(rows: seq<Row>, at: seq<Located>, run: seq<Placed>, current: Located, indent: nat,
          ghost lines: seq<Line>)
    returns (drawn: seq<Row>, ids: seq<Located>)
    requires rows == RowsOf(lines, current) && at == AtOf(lines, current)
    ensures drawn == RowsOf(lines + Runs(run, indent), current)
    ensures ids == AtOf(lines + Runs(run, indent), current)
  {
    hide RowsOf, AtOf, RowOf, At;
    drawn, ids := rows, at;
    assert lines + Runs([], indent) == lines;
    var machine: Option<string> := None;
    for i := 0 to |run|
      invariant machine == if i == 0 then None else Some(run[i - 1].row.host)
      invariant drawn == RowsOf(lines + Runs(run[..i], indent), current)
      invariant ids == AtOf(lines + Runs(run[..i], indent), current)
    {
      var host := run[i].row.host;
      assert run[..i + 1][..i] == run[..i];
      ghost var done := lines + Runs(run[..i], indent);
      if machine != Some(host) {
        machine := Some(host);
        OneMoreHeading(done, host, indent, current);
        drawn := drawn + [HeadingRow(host, indent)];
        done := done + [Heading(host, indent)];
      }
      drawn, ids := DrawSession(drawn, ids, run[i].row, current, indent + 1, done);
      assert done + [Session(At(run[i].row), indent + 1)] == lines + Runs(run[..i + 1], indent);
    }
    assert run[..|run|] == run;
  }

  method DrawTree(p: Picture, g: Table, focus: Option<string>, current: Located)
    returns (rows: seq<Row>, at: seq<Located>)
    ensures rows == RowsOf(AllLines(Showing(p, g, focus), current, focus), current)
    ensures at == AtOf(AllLines(Showing(p, g, focus), current, focus), current)
  {
    hide RowsOf, AtOf, RowOf, Showing, Runs, Filter;
    var showing := Showing(p, g, focus);
    rows, at := StartOf(current);
    var drawn: seq<string> := [];
    for i := 0 to |showing|
      invariant drawn == GroupsSeen(showing[..i])
      invariant rows == RowsOf(GroupLines(drawn, showing), current)
      invariant at == AtOf(GroupLines(drawn, showing), current)
    {
      assert showing[..i + 1][..i] == showing[..i];
      if showing[i].group.None? || showing[i].group.value in drawn {
        continue;
      }
      var name := showing[i].group.value;
      ghost var done := GroupLines(drawn, showing);
      assert (drawn + [name])[..|drawn|] == drawn;
      drawn := drawn + [name];
      OneMoreHeading(done, "@" + name, 0, current);
      rows := rows + [HeadingRow("@" + name, 0)];
      rows, at := DrawRun(rows, at, Filter(InGroup(Some(name)), showing), current, 1, done + [Heading("@" + name, 0)]);
    }
    assert showing[..|showing|] == showing;
    rows, at := DrawRun(rows, at, Filter(InGroup(None), showing), current, 0, GroupLines(drawn, showing));
    ghost var lines := Lines(showing);
    var listedHere := FirstRow(rows, CURRENT).Some?;
    CurrentRowIffDrawn(lines, current);
    if !listedHere {
      var deep := if focus.Some? then 1 else 0;
      OneMoreHeading(lines, current.host, deep, current);
      rows := rows + [HeadingRow(current.host, deep)];
      rows := rows + [NewRow(CURRENT, current.session).(note := Here, indent := deep + 1)];
      OneMoreCurrent(lines + [Heading(current.host, deep)], current, deep + 1);
      assert lines + [Heading(current.host, deep)] + [Session(current, deep + 1)]
          == lines + [Heading(current.host, deep), Session(current, deep + 1)];
    }
  }

  method StartOf(current: Located) returns (rows: seq<Row>, at: seq<Located>)
    ensures rows == RowsOf([], current) && at == AtOf([], current)
  {
    rows, at := [], [current];
  }

  lemma OneMoreCurrent(lines: seq<Line>, current: Located, indent: nat)
    ensures RowsOf(lines + [Session(current, indent)], current)
         == RowsOf(lines, current) + [NewRow(CURRENT, current.session).(note := Here, indent := indent)]
    ensures AtOf(lines + [Session(current, indent)], current) == AtOf(lines, current)
  {
    assert (lines + [Session(current, indent)])[..|lines|] == lines;
  }

  // ----- What an id stands for -----

  lemma {:induction false} RowAt(lines: seq<Line>, current: Located, i: nat)
    requires i < |lines|
    ensures RowsOf(lines, current)[i] == RowOf(lines[i], current, |AtOf(lines[..i], current)|)
    ensures AtOf(lines[..i + 1], current) <= AtOf(lines, current)
    decreases |lines|
  {
    var n := |lines| - 1;
    if i < n {
      RowAt(lines[..n], current, i);
      assert lines[..n][..i] == lines[..i] && lines[..n][..i + 1] == lines[..i + 1];
    } else {
      assert lines[..i + 1] == lines;
    }
  }

  /** A row's id is where its session's address is, and the session you are in is the one with the first id. */
  lemma IdIsTheAddress(lines: seq<Line>, current: Located, i: nat)
    requires i < |lines|
    ensures RowsOf(lines, current)[i].heading <==> lines[i].Heading?
    ensures lines[i].Heading? ==>
              var row := RowsOf(lines, current)[i];
              row.text == lines[i].text && row.indent == lines[i].indent
    ensures lines[i].Session? ==>
              var row := RowsOf(lines, current)[i];
              && row.id < |AtOf(lines, current)| && AtOf(lines, current)[row.id] == lines[i].at
              && row.text == lines[i].at.session && row.indent == lines[i].indent
              && (row.id == CURRENT <==> lines[i].at == current)
  {
    RowAt(lines, current, i);
    assert lines[..i + 1][..i] == lines[..i];
  }

  lemma {:induction false} DrawnAt(lines: seq<Line>, at: Located)
    ensures at in Drawn(lines) <==> exists i :: 0 <= i < |lines| && lines[i].Session? && lines[i].at == at
  {
    if lines != [] {
      var n := |lines| - 1;
      DrawnAt(lines[..n], at);
      hide Drawn;
      DrawnOneMore(lines, at);
      if at in Drawn(lines[..n]) {
        var i :| 0 <= i < n && lines[..n][i].Session? && lines[..n][i].at == at;
        assert lines[i] == lines[..n][i];
      }
      if i :| 0 <= i < |lines| && lines[i].Session? && lines[i].at == at {
        assert i < n ==> lines[..n][i] == lines[i];
      }
    }
  }

  lemma DrawnOneMore(lines: seq<Line>, at: Located)
    requires lines != []
    ensures var n := |lines| - 1;
            at in Drawn(lines) <==> at in Drawn(lines[..n]) || (lines[n].Session? && lines[n].at == at)
  {
  }

  lemma CurrentRowIffDrawn(lines: seq<Line>, current: Located)
    ensures FirstRow(RowsOf(lines, current), CURRENT).Some? <==> current in Drawn(lines)
  {
    DrawnAt(lines, current);
    match FirstRow(RowsOf(lines, current), CURRENT) {
      case Some(k) => IdIsTheAddress(lines, current, k);
      case None =>
        if i :| 0 <= i < |lines| && lines[i].Session? && lines[i].at == current {
          IdIsTheAddress(lines, current, i);
        }
    }
  }

  lemma {:induction false} AtIsDrawn(lines: seq<Line>, current: Located)
    ensures AtOf(lines, current) == [current] + Filter(Other(current), Drawn(lines))
  {
    if lines != [] {
      var n := |lines| - 1;
      AtIsDrawn(lines[..n], current);
      var last := match lines[n] case Session(at, _) => [at] case Heading(_, _) => [];
      FilterOfConcat(Other(current), Drawn(lines[..n]), last);
    }
  }

  function Other(current: Located): Located -> bool {
    (at: Located) => at != current
  }

  // ----- Which rows a command can act on, and which wear a digit -----

  predicate Available(p: Picture, at: Located) {
    exists i | 0 <= i < |p.sessions| :: At(p.sessions[i]) == at
  }

  /** A row of no fresh answer is dim, and out of reach unless it is on the machine you are on. */
  function Dimmed(p: Picture, at: seq<Located>, current: Located): Row -> Row {
    (row: Row) =>
      if row.heading || row.id == CURRENT || row.id >= |at| || Available(p, at[row.id]) then row
      else
        var near := SameMachine(at[row.id].host, current.host);
        row.(available := near, note := if near then Cached else NotAvailable)
  }

  method MarkAvailable(rows: seq<Row>, p: Picture, at: seq<Located>, current: Located) returns (marked: seq<Row>)
    requires Indexes(rows, at)
    requires forall k | 0 <= k < |rows| :: rows[k].available
    ensures marked == Map(Dimmed(p, at, current), rows)
  {
    marked := rows;
    for k := 0 to |rows|
      invariant |marked| == |rows|
      invariant forall n | 0 <= n < |rows| :: marked[n] == if n < k then Dimmed(p, at, current)(rows[n]) else rows[n]
    {
      var row := marked[k];
      if !row.heading && row.id != CURRENT {
        var located := at[row.id];
        var isFresh := Available(p, located);
        row := row.(available := isFresh || SameMachine(located.host, current.host));
        if !isFresh {
          row := row.(note := if row.available then Cached else NotAvailable);
        }
        marked := marked[k := row];
      }
    }
  }

  /** The first row wearing an id. */
  function FirstRow(rows: seq<Row>, id: nat): (k: Option<nat>)
    ensures k.None? ==> forall n | 0 <= n < |rows| :: rows[n].heading || rows[n].id != id
    ensures k.Some? ==>
              && k.value < |rows| && !rows[k.value].heading && rows[k.value].id == id
              && forall n | 0 <= n < k.value :: rows[n].heading || rows[n].id != id
  {
    if rows == [] then None
    else if !rows[0].heading && rows[0].id == id then Some(0)
    else
      match FirstRow(rows[1..], id)
      case None => assert forall n | 0 < n < |rows| :: rows[n] == rows[1..][n - 1]; None
      case Some(k) => assert forall n | 0 < n < |rows| :: rows[n] == rows[1..][n - 1]; Some(k + 1)
  }

  const DIGITS: nat := 9

  /** The digits from one on, given out along a trail to the rows that are here. */
  function Numbered(rows: seq<Row>, at: seq<Located>, trail: seq<Located>, digit: nat): (r: seq<Row>)
    ensures |r| == |rows|
    decreases |trail|
  {
    if trail == [] then rows
    else
      match PositionOf(trail[0], at)
      case None => Numbered(rows, at, trail[1..], digit)
      case Some(id) =>
        match FirstRow(rows, id)
        case None => Numbered(rows, at, trail[1..], digit)
        case Some(k) =>
          var marked := rows[k := rows[k].(number := Some(digit + 1))];
          if digit + 1 == DIGITS then marked else Numbered(marked, at, trail[1..], digit + 1)
  }

  method HandOutDigits(rows: seq<Row>, at: seq<Located>, recent: seq<Located>) returns (numbered: seq<Row>)
    ensures numbered == Numbered(rows, at, recent, 0)
  {
    numbered := rows;
    var digit := 0;
    for i := 0 to |recent|
      invariant Numbered(rows, at, recent, 0) == Numbered(numbered, at, recent[i..], digit)
    {
      assert recent[i..][1..] == recent[i + 1..];
      var id := PositionOf(recent[i], at);
      if id.None? {
        continue;
      }
      var k := FirstRow(numbered, id.value);
      if k.None? {
        continue;
      }
      digit := digit + 1;
      numbered := numbered[k.value := numbered[k.value].(number := Some(digit))];
      if digit == DIGITS {
        return;
      }
    }
  }

  // ----- The machines a session could be started on -----

  function MachineNames(hosts: seq<string>, current: Located): seq<string> {
    var names := hosts + [AsListed(current.host)];
    Dedup(Sort(ByName(), if exists i :: 0 <= i < |names| && IsThisMachine(names[i]) then names else names + [THIS_MACHINE]))
  }

  method Machines(hosts: seq<string>, current: Located) returns (rows: seq<Row>, names: seq<string>, at: nat)
    ensures names == MachineNames(hosts, current)
    ensures |rows| == |names| && forall i | 0 <= i < |rows| :: MachineRow(rows[i], i, names[i], current)
    ensures at < |names| && SameMachine(names[at], current.host)
    ensures forall i | 0 <= i < at :: !SameMachine(names[i], current.host)
  {
    hide Sort, Dedup, ByName;
    names := hosts + [AsListed(current.host)];
    if !exists i :: 0 <= i < |names| && IsThisMachine(names[i]) {
      names := names + [THIS_MACHINE];
    }
    names := Dedup(Sort(ByName(), names));
    rows := [];
    for i := 0 to |names|
      invariant |rows| == i && forall k | 0 <= k < i :: MachineRow(rows[k], k, names[k], current)
    {
      var here := SameMachine(names[i], current.host);
      rows := rows + [NewRow(i, names[i]).(note := if here then Here else Said)];
    }
    MachinesOffered(hosts, current);
    at := 0;
    while !SameMachine(names[rows[at].id], current.host)
      invariant at < |names|
      invariant forall i | 0 <= i < at :: !SameMachine(names[i], current.host)
      decreases |names| - at
    {
      assert exists i :: at < i < |names| && SameMachine(names[i], current.host);
      at := at + 1;
    }
  }

  /** A row whose id is its place, marked where you are. */
  predicate MachineRow(row: Row, id: nat, name: string, current: Located) {
    row == NewRow(id, name).(note := if SameMachine(name, current.host) then Here else Said)
  }

  /**
    Every watched machine once and in order, with the one you are on and this one
    whether or not they are watched, and nothing else.
   */
  lemma MachinesOffered(hosts: seq<string>, current: Located)
    ensures var names := MachineNames(hosts, current);
            && Ascending(ByName(), names)
            && (forall m | m in hosts :: m in names) && AsListed(current.host) in names
            && (exists i :: 0 <= i < |names| && SameMachine(names[i], current.host))
            && (exists i :: 0 <= i < |names| && IsThisMachine(names[i]))
            && forall m | m in names :: m in hosts || m == AsListed(current.host) || m == THIS_MACHINE
  {
    hide Sort, Dedup, ByName, IsThisMachine;
    var asked := hosts + [AsListed(current.host)];
    var all := if exists i :: 0 <= i < |asked| && IsThisMachine(asked[i]) then asked else asked + [THIS_MACHINE];
    InOrderOnce(all);
    assert all[|hosts|] == AsListed(current.host);
    assert IsThisMachine(THIS_MACHINE) by { ThisMachineIsThis(); }
    if i :| 0 <= i < |asked| && IsThisMachine(asked[i]) {
      assert asked[i] in MachineNames(hosts, current);
    } else {
      assert all[|asked|] in MachineNames(hosts, current);
    }
  }

  lemma ThisMachineIsThis()
    ensures IsThisMachine(THIS_MACHINE)
  {
  }

  lemma InOrderOnce(all: seq<string>)
    ensures Ascending(ByName(), Dedup(Sort(ByName(), all)))
    ensures forall m :: m in Dedup(Sort(ByName(), all)) <==> m in all
  {
    hide Sort, Dedup, ByName;
    ByNameIsTotal();
    SortSorts(ByName(), all);
    DedupOfSorted(ByName(), Sort(ByName(), all));
    assert forall m :: m in all <==> m in multiset(all);
  }

  // ----- The groups -----

  /** The groups with a session in this listing, by name. */
  function Held(g: Table, sessions: seq<HostedSession>): seq<string> {
    Ascend(set name | name in g && exists i :: 0 <= i < |sessions| && In(g, name, MemberOfRow(sessions[i])))
  }

  /** A group is offered exactly when a session of the newest listing is in it, in order of name and once. */
  lemma HeldExactlyWhen(g: Table, sessions: seq<HostedSession>, name: string)
    ensures name in Held(g, sessions) <==> exists row :: row in sessions && In(g, name, MemberOfRow(row))
    ensures Ascending(ByName(), Held(g, sessions))
  {
    hide MemberOfRow;
    if row :| row in sessions && In(g, name, MemberOfRow(row)) {
      var i :| 0 <= i < |sessions| && sessions[i] == row;
      assert In(g, name, MemberOfRow(sessions[i]));
    }
    if i :| 0 <= i < |sessions| && In(g, name, MemberOfRow(sessions[i])) { assert sessions[i] in sessions; }
  }

  predicate GroupRow(row: Row, id: nat, name: string, focus: Option<string>) {
    row == NewRow(id, "@" + name).(note := if focus == Some(name) then Here else Said)
  }

  lemma IsGroupRow(row: Row, id: nat, name: string, focus: Option<string>)
    requires row == NewRow(id, "@" + name).(note := if focus == Some(name) then Here else Said)
    ensures GroupRow(row, id, name, focus)
  {
  }

  /** The first row is everything, or no group. */
  method GroupRows(g: Table, sessions: seq<HostedSession>, focus: Option<string>)
    returns (rows: seq<Row>, names: seq<Option<string>>)
    ensures names == [None] + Map((name: string) => Some(name), Held(g, sessions))
    ensures |rows| == |names| && rows[0] == NewRow(0, "(none)")
    ensures forall i | 1 <= i < |rows| :: GroupRow(rows[i], i, names[i].value, focus)
  {
    hide Held, GroupRow;
    rows, names := [NewRow(0, "(none)")], [None];
    var held := Held(g, sessions);
    for i := 0 to |held|
      invariant |rows| == |names| == i + 1 && rows[0] == NewRow(0, "(none)") && names[0] == None
      invariant forall k | 0 <= k < i :: names[k + 1] == Some(held[k])
      invariant forall k | 1 <= k <= i :: GroupRow(rows[k], k, held[k - 1], focus)
    {
      var row := NewRow(|names|, "@" + held[i]).(note := if focus == Some(held[i]) then Here else Said);
      IsGroupRow(row, i + 1, held[i], focus);
      rows := rows + [row];
      names := names + [Some(held[i])];
    }
  }

  // ----- All of it -----

  datatype Rows = Rows(sessions: seq<Row>, groups: seq<Row>, hosts: seq<Row>, at: nat, machine: nat,
      narrowed: Option<string>)

  datatype Listed = Listed(rows: Rows, at: seq<Located>, groups: seq<Option<string>>, hosts: seq<string>)

  const NOTHING_LISTED := Listed(Rows([], [], [], 0, 0, None), [], [], [])

  function LinesFor(p: Picture, g: Table, focus: Option<string>, current: Located): seq<Line> {
    AllLines(Showing(p, g, focus), current, focus)
  }

  /** The session rows, finished. */
  function Arranged(p: Picture, g: Table, focus: Option<string>, recent: seq<Located>): seq<Row>
    requires recent != []
  {
    var lines := LinesFor(p, g, focus, recent[0]);
    var at := AtOf(lines, recent[0]);
    Numbered(Map(Dimmed(p, at, recent[0]), RowsOf(lines, recent[0])), at, recent, 0)
  }

  method Of(p: Picture, g: Table, hosts: seq<string>, focus: Option<string>, recent: seq<Located>) returns (r: Listed)
    ensures recent == [] ==> r == NOTHING_LISTED
    ensures recent != [] ==>
              && r.rows.sessions == Arranged(p, g, focus, recent)
              && r.at == AtOf(LinesFor(p, g, focus, recent[0]), recent[0])
              && r.groups == [None] + Map((name: string) => Some(name), Held(g, p.sessions))
              && r.hosts == MachineNames(hosts, recent[0])
              && r.rows.narrowed == focus
              && FirstRow(r.rows.sessions, CURRENT) == Some(r.rows.at)
              && r.rows.machine < |r.hosts| && SameMachine(r.hosts[r.rows.machine], recent[0].host)
              && (forall i | 0 <= i < r.rows.machine :: !SameMachine(r.hosts[i], recent[0].host))
              && |r.rows.groups| == |r.groups| && r.rows.groups[0] == Row(0, "(none)", 0, false, true, Said, None)
              && (forall i | 1 <= i < |r.groups| && r.groups[i].Some? ::
                    r.rows.groups[i] == Row(i, "@" + r.groups[i].value, 0, false, true,
                                            if focus == r.groups[i] then Here else Said, None))
              && |r.rows.hosts| == |r.hosts|
              && (forall i | 0 <= i < |r.hosts| ::
                    r.rows.hosts[i] == Row(i, r.hosts[i], 0, false, true,
                                           if SameMachine(r.hosts[i], recent[0].host) then Here else Said, None))
              && Indexes(r.rows.sessions, r.at) && Indexes(r.rows.groups, r.groups) && Indexes(r.rows.hosts, r.hosts)
  {
    hide RowsOf, AtOf, Dimmed, Numbered, Showing, AllLines, MachineNames, Held;
    if recent == [] {
      return NOTHING_LISTED;
    }
    var current := recent[0];
    var rows, at := DrawTree(p, g, focus, current);
    ghost var lines := LinesFor(p, g, focus, current);
    RowsIndexTheirTable(lines, current);
    rows := MarkAvailable(rows, p, at, current);
    rows := HandOutDigits(rows, at, recent);
    OnlyTheLooksChange(p, lines, recent);
    var highlight := match FirstRow(rows, CURRENT) case Some(k) => k case None => 0;
    var groupRows, names := GroupRows(g, p.sessions, focus);
    var machineRows, machines, machine := Machines(hosts, current);
    ArrangedHasCurrent(p, g, focus, recent);
    r := Listed(Rows(rows, groupRows, machineRows, highlight, machine, focus), at, names, machines);
  }

  lemma RowsIndexTheirTable(lines: seq<Line>, current: Located)
    ensures Indexes(RowsOf(lines, current), AtOf(lines, current))
    ensures forall k | 0 <= k < |lines| :: RowsOf(lines, current)[k].available
  {
    forall k | 0 <= k < |lines|
      ensures RowsOf(lines, current)[k].available
      ensures !RowsOf(lines, current)[k].heading ==> RowsOf(lines, current)[k].id < |AtOf(lines, current)|
    {
      IdIsTheAddress(lines, current, k);
      RowAt(lines, current, k);
    }
  }

  /** Rows that are the same but for whether they are dim and what digit they wear. */
  predicate SameButLooks(a: Row, b: Row) {
    a.id == b.id && a.text == b.text && a.indent == b.indent && a.heading == b.heading
  }

  lemma {:induction false} NumberedChangesLooks(rows: seq<Row>, at: seq<Located>, trail: seq<Located>, digit: nat)
    ensures forall k | 0 <= k < |rows| ::
              Numbered(rows, at, trail, digit)[k] == rows[k].(number := Numbered(rows, at, trail, digit)[k].number)
    decreases |trail|
  {
    if trail != [] {
      match PositionOf(trail[0], at)
      case None => NumberedChangesLooks(rows, at, trail[1..], digit);
      case Some(id) =>
        match FirstRow(rows, id)
        case None => NumberedChangesLooks(rows, at, trail[1..], digit);
        case Some(k) =>
          NumberedChangesLooks(rows[k := rows[k].(number := Some(digit + 1))], at, trail[1..], digit + 1);
    }
  }

  lemma OnlyTheLooksChange(p: Picture, lines: seq<Line>, recent: seq<Located>)
    requires recent != []
    ensures var at := AtOf(lines, recent[0]);
            var rows := Numbered(Map(Dimmed(p, at, recent[0]), RowsOf(lines, recent[0])), at, recent, 0);
            && |rows| == |lines| && (forall k | 0 <= k < |lines| :: SameButLooks(rows[k], RowsOf(lines, recent[0])[k]))
            && Indexes(rows, at)
  {
    hide RowsOf, AtOf, Numbered;
    var at := AtOf(lines, recent[0]);
    NumberedChangesLooks(Map(Dimmed(p, at, recent[0]), RowsOf(lines, recent[0])), at, recent, 0);
    RowsIndexTheirTable(lines, recent[0]);
  }

  lemma ArrangedHasCurrent(p: Picture, g: Table, focus: Option<string>, recent: seq<Located>)
    requires recent != []
    ensures FirstRow(Arranged(p, g, focus, recent), CURRENT).Some?
  {
    hide RowsOf, AtOf, Numbered, Dimmed, Lines;
    var lines := LinesFor(p, g, focus, recent[0]);
    OnlyTheLooksChange(p, lines, recent);
    assert recent[0] in Drawn(lines) by { CurrentIsDrawn(Showing(p, g, focus), recent[0], focus); }
    CurrentRowIffDrawn(lines, recent[0]);
    var k := FirstRow(RowsOf(lines, recent[0]), CURRENT).value;
    assert SameButLooks(Arranged(p, g, focus, recent)[k], RowsOf(lines, recent[0])[k]);
  }

  lemma CurrentIsDrawn(showing: seq<Placed>, current: Located, focus: Option<string>)
    ensures current in Drawn(AllLines(showing, current, focus))
  {
    hide Lines, Drawn;
    var lines := Lines(showing);
    if current !in Drawn(lines) {
      var deep := if focus.Some? then 1 else 0;
      var more := lines + [Heading(current.host, deep)];
      OneMoreDrawn(more, current, deep + 1);
      assert AllLines(showing, current, focus) == more + [Session(current, deep + 1)];
    }
  }

  lemma OneMoreDrawn(lines: seq<Line>, at: Located, indent: nat)
    ensures Drawn(lines + [Session(at, indent)]) == Drawn(lines) + [at]
  {
    assert (lines + [Session(at, indent)])[..|lines|] == lines;
  }
}
