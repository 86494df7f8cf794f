/** What the orders things are listed in come to, said of the things listed. */
module Orders {
  import opened Lists
  import opened Names
  import opened Popup
  import opened PopupTree
  import opened Sessions
  import opened Text
  import opened Wrappers
  import Fanout
  import Snapshots
  import Utf8

  // ----- Names -----

  /** One name comes before another at the first letter in which they differ, or as the beginning of it. */
  ghost predicate ComesFirst(a: string, b: string) {
    a <= b || exists k :: 0 <= k < |a| && k < |b| && a[..k] == b[..k] && a[k] < b[k]
  }

  lemma {:induction false} AtMostComesFirst(a: string, b: string)
    ensures AtMost(a, b) <==> ComesFirst(a, b)
  {
    if a != "" && b != "" && a[0] == b[0] {
      AtMostComesFirst(a[1..], b[1..]);
      assert a == [a[0]] + a[1..] && b == [b[0]] + b[1..];
      if k :| 0 <= k < |a[1..]| && k < |b[1..]| && a[1..][..k] == b[1..][..k] && a[1..][k] < b[1..][k] {
        assert a[..k + 1] == [a[0]] + a[1..][..k] && b[..k + 1] == [b[0]] + b[1..][..k];
      }
      if k :| 0 <= k < |a| && k < |b| && a[..k] == b[..k] && a[k] < b[k] {
        assert a[1..][..k - 1] == a[..k][1..] && b[1..][..k - 1] == b[..k][1..];
      }
    }
  }

  // ----- Sessions -----

  /** By machine, and oldest first on each. */
  ghost predicate OldestFirst(rows: seq<HostedSession>) {
    forall i, j | 0 <= i < j < |rows| ::
      && ComesFirst(rows[i].host, rows[j].host)
      && (rows[i].host == rows[j].host ==> rows[i].session.started <= rows[j].session.started)
  }

  /** And of those as old, by name. */
  ghost predicate ThenByName(rows: seq<HostedSession>) {
    forall i, j | 0 <= i < j < |rows| && rows[i].host == rows[j].host && rows[i].session.started == rows[j].session.started ::
      ComesFirst(rows[i].session.name, rows[j].session.name)
  }

  /** A listing is by machine, oldest first, then by name; and the machines missed by name. */
  lemma ListingIsInOrder(hosts: seq<string>, outcomes: seq<Fanout.Outcome>, order: seq<nat>)
    requires |hosts| == |outcomes| && Fanout.Within(order, |hosts|)
    ensures var heard := Fanout.Finished(Fanout.GatheredFrom(hosts, outcomes, order));
            && OldestFirst(heard.sessions) && ThenByName(heard.sessions)
            && forall i, j | 0 <= i < j < |heard.unreachable| ::
                 ComesFirst(heard.unreachable[i].host, heard.unreachable[j].host)
  {
    hide AtMost, ComesFirst, Fanout.GatheredFrom, Fanout.Duplicates, Sort;
    var raw := Fanout.GatheredFrom(hosts, outcomes, order);
    var heard := Fanout.Finished(raw);
    Fanout.ByAgeIsTotal();
    Fanout.ByHostIsTotal();
    SortSorts(Fanout.ByAge(), raw.sessions);
    SortSorts(Fanout.ByHost(), raw.unreachable);
    forall i, j | 0 <= i < j < |heard.sessions|
      ensures AtMost(heard.sessions[i].host, heard.sessions[j].host)
    {
      assert Fanout.ByAge()(heard.sessions[i], heard.sessions[j]);
      AtMostIsTotal(heard.sessions[i].host, heard.sessions[i].host);
    }
    forall a, b ensures AtMost(a, b) <==> ComesFirst(a, b) { AtMostComesFirst(a, b); }
    forall i, j | 0 <= i < j < |heard.sessions| && heard.sessions[i].host == heard.sessions[j].host
      ensures heard.sessions[i].session.started <= heard.sessions[j].session.started
      ensures heard.sessions[i].session.started == heard.sessions[j].session.started ==>
                AtMost(heard.sessions[i].session.name, heard.sessions[j].session.name)
    {
      assert Fanout.ByAge()(heard.sessions[i], heard.sessions[j]);
    }
    forall i, j | 0 <= i < j < |heard.unreachable| ensures AtMost(heard.unreachable[i].host, heard.unreachable[j].host) {
      assert Fanout.ByHost()(heard.unreachable[i], heard.unreachable[j]);
    }
  }

  /** So is what is known, over any history. */
  lemma KnownIsInOrder(events: seq<Snapshots.Event>)
    requires Snapshots.AllHonest(events)
    ensures OldestFirst(Snapshots.Known(Snapshots.Run(events)))
  {
    hide AtMost, ComesFirst, Snapshots.Run, Snapshots.Known;
    Snapshots.KnownIsTheLastAnswer(events, LOCAL);
    var rows := Snapshots.Known(Snapshots.Run(events));
    forall i, j | 0 <= i < j < |rows|
      ensures ComesFirst(rows[i].host, rows[j].host)
      ensures rows[i].host == rows[j].host ==> rows[i].session.started <= rows[j].session.started
    {
      assert Snapshots.ByAge()(rows[i], rows[j]);
      AtMostComesFirst(rows[i].host, rows[j].host);
    }
  }

  // ----- Names for one machine -----

  /** The better of two names for one machine: this machine's own, then the shorter in bytes, then the first by name. */
  ghost predicate IsBetter(a: string, b: string) {
    || (IsThisMachine(a) && !IsThisMachine(b))
    || (IsThisMachine(a) == IsThisMachine(b) && |Utf8.Encode(a)| < |Utf8.Encode(b)|)
    || (IsThisMachine(a) == IsThisMachine(b) && |Utf8.Encode(a)| == |Utf8.Encode(b)| && ComesFirst(a, b))
  }

  /** The name a pair says to keep is better than any other the machine answered under. */
  lemma KeptNameIsBest(node: string, d: Fanout.Duplicate, answered: seq<Fanout.Answered>, name: string)
    requires Fanout.SaidToBeOne(node, d, answered) && Fanout.IsName(node, name, answered)
    ensures IsBetter(d.knownAs, name)
  {
    AtMostComesFirst(d.knownAs, name);
    hide AtMost, Utf8.Encode, IsThisMachine;
    assert Fanout.ByWorth()(d.knownAs, name);
  }

  /** The pairs said are in order of the nodes they are names of, and one node's from the better name to the worse. */
  lemma DuplicatesAreInOrder(answered: seq<Fanout.Answered>, i: nat, j: nat, a: string, b: string)
    requires Distinct(Map(Fanout.HostOf(), answered))
    requires var said := Fanout.Duplicates(answered);
             i < j < |said| && Fanout.SaidToBeOne(a, said[i], answered) && Fanout.SaidToBeOne(b, said[j], answered)
    ensures var said := Fanout.Duplicates(answered);
            ComesFirst(a, b) && (a == b ==> IsBetter(said[i].also, said[j].also))
  {
    hide Fanout.DuplicatesFor, AtMost, ComesFirst, Fanout.SaidToBeOne;
    AtMostComesFirst(a, b);
    var said := Fanout.Duplicates(answered);
    InOrderFor(Ascend(Fanout.NodesOf(answered)), answered, i, j, a, b);
    if a == b { WorthIsBetter(said[i].also, said[j].also); }
  }

  lemma WorthIsBetter(a: string, b: string)
    requires Fanout.ByWorth()(a, b)
    ensures IsBetter(a, b)
  {
    AtMostComesFirst(a, b);
  }

  lemma {:induction false} InOrderFor(nodes: seq<string>, answered: seq<Fanout.Answered>, i: nat, j: nat, a: string, b: string)
    requires Distinct(Map(Fanout.HostOf(), answered)) && Ascending(ByName(), nodes)
    requires var said := Fanout.DuplicatesFor(nodes, answered);
             i < j < |said| && Fanout.SaidToBeOne(a, said[i], answered) && Fanout.SaidToBeOne(b, said[j], answered)
    ensures var said := Fanout.DuplicatesFor(nodes, answered);
            AtMost(a, b) && (a == b ==> Fanout.ByWorth()(said[i].also, said[j].also))
    decreases |nodes|
  {
    hide AtMost, Fanout.AlsoKnown, Fanout.NamesOf, Fanout.SaidToBeOne;
    var n := |nodes| - 1;
    var said := Fanout.DuplicatesFor(nodes, answered);
    var before, own := Fanout.DuplicatesFor(nodes[..n], answered), Fanout.AlsoKnown(Fanout.NamesOf(nodes[n], answered));
    if j < |before| {
      InOrderFor(nodes[..n], answered, i, j, a, b);
    } else {
      assert said[j] == own[j - |before|] && said[j] in own;
      OneNode(answered, said[j], nodes[n], b);
      if i < |before| {
        assert said[i] == before[i] && said[i] in before;
        Fanout.DuplicatesInNodes(nodes[..n], answered, said[i]);
        var node :| node in nodes[..n] && said[i] in Fanout.AlsoKnown(Fanout.NamesOf(node, answered));
        OneNode(answered, said[i], node, a);
        var k :| 0 <= k < n && nodes[k] == node;
        EarlierIsOther(nodes, k, n);
      } else {
        assert said[i] == own[i - |before|] && said[i] in own;
        OneNode(answered, said[i], nodes[n], a);
        AtMostIsTotal(a, a);
        BetterFirst(nodes[n], answered, i - |before|, j - |before|);
      }
    }
  }

  lemma EarlierIsOther(nodes: seq<string>, k: nat, n: nat)
    requires Ascending(ByName(), nodes) && k < n < |nodes|
    ensures AtMost(nodes[k], nodes[n]) && nodes[k] != nodes[n]
  {
    assert ByName()(nodes[k], nodes[n]);
  }

  /** A name is of one node, where no host answered twice. */
  lemma OneNode(answered: seq<Fanout.Answered>, d: Fanout.Duplicate, node: string, other: string)
    requires Distinct(Map(Fanout.HostOf(), answered)) && Fanout.SaidToBeOne(other, d, answered)
    requires d in Fanout.AlsoKnown(Fanout.NamesOf(node, answered))
    ensures node == other
  {
    Fanout.AlsoKnownIsAllButTheBest(node, answered, d);
    var i :| 0 <= i < |answered| && answered[i] == Fanout.Answered(d.also, Some(node));
    var j :| 0 <= j < |answered| && answered[j] == Fanout.Answered(d.also, Some(other));
    assert Map(Fanout.HostOf(), answered)[i] == Map(Fanout.HostOf(), answered)[j];
  }

  lemma BetterFirst(node: string, answered: seq<Fanout.Answered>, i: nat, j: nat)
    requires i < j < |Fanout.AlsoKnown(Fanout.NamesOf(node, answered))|
    ensures var own := Fanout.AlsoKnown(Fanout.NamesOf(node, answered)); Fanout.ByWorth()(own[i].also, own[j].also)
  {
    hide Fanout.NamesOf, Fanout.ByWorth;
    Fanout.NamesAreSorted(node, answered);
  }

  // ----- Groups -----

  /** The first session shown of a group. */
  predicate FirstOf(showing: seq<Placed>, group: Option<string>, i: int) {
    0 <= i < |showing| && showing[i].group == group && forall k | 0 <= k < i :: showing[k].group != group
  }

  /** The groups shown, each once, in the order their first sessions are shown in. */
  ghost predicate GroupsInOrder(names: seq<string>, showing: seq<Placed>) {
    && Distinct(names)
    && (forall i | 0 <= i < |showing| && showing[i].group.Some? :: showing[i].group.value in names)
    && (forall a | 0 <= a < |names| :: IsShown(showing, names[a]))
    && (forall a, b, i, j | 0 <= a < b < |names| && FirstOf(showing, Some(names[a]), i) && FirstOf(showing, Some(names[b]), j) ::
          i < j)
  }

  ghost predicate IsShown(showing: seq<Placed>, name: string) {
    exists i :: FirstOf(showing, Some(name), i)
  }

  lemma {:induction false} GroupsSeenInOrder(showing: seq<Placed>)
    ensures GroupsInOrder(GroupsSeen(showing), showing)
    decreases |showing|
  {
    if showing != [] {
      var n := |showing| - 1;
      GroupsSeenInOrder(showing[..n]);
      OneMoreShown(showing, GroupsSeen(showing[..n]), GroupsSeen(showing));
    }
  }

  lemma FirstOfFewer(showing: seq<Placed>, n: nat)
    requires n <= |showing|
    ensures forall g, i | i < n :: FirstOf(showing[..n], g, i) <==> FirstOf(showing, g, i)
  {
  }

  lemma OneMoreShown(showing: seq<Placed>, before: seq<string>, names: seq<string>)
    requires showing != [] && GroupsInOrder(before, showing[..|showing| - 1])
    requires names == match showing[|showing| - 1].group
                      case Some(name) => if name in before then before else before + [name]
                      case None => before
    ensures GroupsInOrder(names, showing)
  {
    var n := |showing| - 1;
    FirstOfFewer(showing, n);
    forall i | 0 <= i < |showing| && showing[i].group.Some? ensures showing[i].group.value in names {
      if i < n {
        assert showing[..n][i] == showing[i];
      } else {
        assert names == before || names[|before|] == showing[n].group.value;
      }
    }
    forall a | 0 <= a < |before| ensures IsShown(showing, before[a]) && !FirstOf(showing, Some(before[a]), n) {
      assert IsShown(showing[..n], before[a]);
      var i :| FirstOf(showing[..n], Some(before[a]), i);
      assert FirstOf(showing, Some(before[a]), i);
    }
    if |names| > |before| {
      forall k | 0 <= k < n ensures showing[k].group != Some(names[|before|]) {
        assert showing[..n][k] == showing[k];
      }
      assert FirstOf(showing, Some(names[|before|]), n);
    }
    forall a, b, i, j | 0 <= a < b < |names| && FirstOf(showing, Some(names[a]), i) && FirstOf(showing, Some(names[b]), j)
      ensures i < j
    {
      assert names[a] == before[a];
      if b < |before| {
        assert FirstOf(showing[..n], Some(before[a]), i) && FirstOf(showing[..n], Some(before[b]), j);
      } else {
        assert j == n;
      }
    }
  }

  /** The sessions of some groups, one group after another. */
  function InGroups(names: seq<string>, showing: seq<Placed>): seq<Placed> {
    if names == [] then []
    else InGroups(names[..|names| - 1], showing) + Filter(InGroup(Some(names[|names| - 1])), showing)
  }

  lemma {:induction false} DrawnByGroup(names: seq<string>, showing: seq<Placed>)
    ensures Drawn(GroupLines(names, showing)) == Map(Address(), InGroups(names, showing))
    decreases |names|
  {
    hide *;
    if names == [] {
      NoGroups(showing);
    } else {
      var before, name := names[..|names| - 1], names[|names| - 1];
      DrawnByGroup(before, showing);
      OneMoreGroup(names, showing);
      MapOfConcat(Address(), InGroups(before, showing), Filter(InGroup(Some(name)), showing));
    }
  }

  lemma NoGroups(showing: seq<Placed>)
    ensures Drawn(GroupLines([], showing)) == Map(Address(), InGroups([], showing))
  {
    DrawnOfNone();
  }

  lemma MapOfConcat<T, U>(f: T -> U, a: seq<T>, b: seq<T>)
    ensures Map(f, a + b) == Map(f, a) + Map(f, b)
  {
  }

  lemma OneMoreGroup(names: seq<string>, showing: seq<Placed>)
    requires names != []
    ensures var before, run := names[..|names| - 1], Filter(InGroup(Some(names[|names| - 1])), showing);
            && Drawn(GroupLines(names, showing)) == Drawn(GroupLines(before, showing)) + Map(Address(), run)
            && InGroups(names, showing) == InGroups(before, showing) + run
  {
    hide Filter, Drawn, Runs;
    var before, name := names[..|names| - 1], names[|names| - 1];
    var run := Filter(InGroup(Some(name)), showing);
    DrawnOfThree(GroupLines(before, showing), [Heading("@" + name, 0)], Runs(run, 1));
    DrawnOfOne(Heading("@" + name, 0));
    DrawnOfRuns(run, 1);
    assert Drawn(GroupLines(before, showing)) + [] == Drawn(GroupLines(before, showing));
  }

  /**
    The sessions of a listing are drawn group by group, in the order the groups' first
    sessions are shown in, and then those in none; and each of these in listing order.
   */
  lemma DrawnGroupByGroup(showing: seq<Placed>)
    ensures var names := GroupsSeen(showing);
            && GroupsInOrder(names, showing)
            && Drawn(Lines(showing)) ==
               Map(Address(), InGroups(names, showing)) + Map(Address(), Filter(InGroup(None), showing))
  {
    hide Filter, Drawn, Runs, GroupsSeen, GroupLines;
    var names := GroupsSeen(showing);
    GroupsSeenInOrder(showing);
    DrawnByGroup(names, showing);
    DrawnOfConcat(GroupLines(names, showing), Runs(Filter(InGroup(None), showing), 0));
    DrawnOfRuns(Filter(InGroup(None), showing), 0);
  }
}
