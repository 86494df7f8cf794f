/**
  src/target.rs: asking every machine at once. Answers come back in any order,
  and what is made of them does not depend on it.
 */
module Fanout {
  import opened Groups
  import opened Lists
  import opened Names
  import opened Sessions
  import opened Text
  import opened Wrappers
  import Utf8
  import Snapshots

  /** What one machine said: its sessions, and which node it is if it said. */
  datatype Answer = Answer(sessions: seq<SessionInfo>, node: Option<string>)

  type Found = Result<Answer, string>

  datatype Unreachable = Unreachable(host: string, error: string)

  datatype Answered = Answered(host: string, node: Option<string>)

  datatype Duplicate = Duplicate(knownAs: string, also: string)

  /** The fields of a listing, as a value. */
  datatype Heard = Heard(sessions: seq<HostedSession>, unreachable: seq<Unreachable>, duplicates: seq<Duplicate>,
      answered: seq<Answered>)

  const NOTHING := Heard([], [], [], [])

  function RowsOf(host: string, sessions: seq<SessionInfo>): seq<HostedSession> {
    Map((session: SessionInfo) => HostedSession(host, session), sessions)
  }

  /** One machine's reply added to what was heard. */
  function With(heard: Heard, host: string, found: Found): Heard {
    match found
    case Ok(answer) =>
      heard.(answered := heard.answered + [Answered(host, answer.node)],
             sessions := heard.sessions + RowsOf(host, answer.sessions))
    case Err(e) => heard.(unreachable := heard.unreachable + [Unreachable(host, e)])
  }

  // ----- Names for one machine -----

  /** The name worth keeping first: this machine's own, then the shortest in bytes, then the first by name. */
  function ByWorth(): (string, string) -> bool {
    (a: string, b: string) =>
      if IsThisMachine(a) != IsThisMachine(b) then IsThisMachine(a)
      else if |Utf8.Encode(a)| != |Utf8.Encode(b)| then |Utf8.Encode(a)| < |Utf8.Encode(b)|
      else AtMost(a, b)
  }

  lemma ByWorthIsTotal()
    ensures TotalOrder(ByWorth()) && Antisymmetric(ByWorth())
  {
    hide Utf8.Encode, AtMost, IsThisMachine;
    forall a: string, b: string
      ensures (ByWorth()(a, b) || ByWorth()(b, a)) && (ByWorth()(a, b) && ByWorth()(b, a) ==> a == b)
    {
      AtMostIsTotal(a, b);
    }
    forall a: string, b: string, c: string | ByWorth()(a, b) && ByWorth()(b, c) ensures ByWorth()(a, c) {
      if AtMost(a, b) && AtMost(b, c) { AtMostIsTransitive(a, b, c); }
    }
  }

  function OfNode(node: string): Answered -> bool {
    (a: Answered) => a.node == Some(node)
  }

  function HostOf(): Answered -> string {
    (a: Answered) => a.host
  }

  /** The names one node answered under, the one to keep first. */
  function NamesOf(node: string, answered: seq<Answered>): seq<string> {
    Sort(ByWorth(), Map(HostOf(), Filter(OfNode(node), answered)))
  }

  function NodesOf(answered: seq<Answered>): set<string> {
    set i | 0 <= i < |answered| && answered[i].node.Some? :: answered[i].node.value
  }

  function AlsoKnown(names: seq<string>): seq<Duplicate> {
    if |names| < 2 then [] else Map((also: string) => Duplicate(names[0], also), names[1..])
  }

  function DuplicatesFor(nodes: seq<string>, answered: seq<Answered>): seq<Duplicate> {
    if nodes == [] then []
    else DuplicatesFor(nodes[..|nodes| - 1], answered) + AlsoKnown(NamesOf(nodes[|nodes| - 1], answered))
  }

  function Duplicates(answered: seq<Answered>): seq<Duplicate> {
    DuplicatesFor(Ascend(NodesOf(answered)), answered)
  }

  // ----- Which machines answered -----

  function Answering(answered: seq<Answered>): seq<string> {
    Dedup(Sort(ByName(), Map(HostOf(), answered)))
  }

  function Reached(answered: seq<Answered>): seq<string> {
    Dedup(Sort(ByName(), Filter(Away(), Map(HostOf(), answered))))
  }

  // ----- Order of a listing -----

  function ByAge(): (HostedSession, HostedSession) -> bool {
    (a: HostedSession, b: HostedSession) =>
      if a.host != b.host then AtMost(a.host, b.host)
      else if a.session.started != b.session.started then a.session.started < b.session.started
      else AtMost(a.session.name, b.session.name)
  }

  lemma ByAgeIsTotal()
    ensures TotalOrder(ByAge())
  {
    hide AtMost;
    forall a: HostedSession, b: HostedSession ensures ByAge()(a, b) || ByAge()(b, a) {
      AtMostIsTotal(a.host, b.host);
      AtMostIsTotal(a.session.name, b.session.name);
    }
    forall a: HostedSession, b: HostedSession, c: HostedSession | ByAge()(a, b) && ByAge()(b, c) ensures ByAge()(a, c) {
      AtMostIsTotal(a.host, b.host);
      AtMostIsTotal(b.host, c.host);
      if AtMost(a.host, b.host) && AtMost(b.host, c.host) { AtMostIsTransitive(a.host, b.host, c.host); }
      if AtMost(a.session.name, b.session.name) && AtMost(b.session.name, c.session.name) {
        AtMostIsTransitive(a.session.name, b.session.name, c.session.name);
      }
    }
  }

  function ByHost(): (Unreachable, Unreachable) -> bool {
    (a: Unreachable, b: Unreachable) => AtMost(a.host, b.host)
  }

  lemma ByHostIsTotal()
    ensures TotalOrder(ByHost())
  {
    forall a: Unreachable, b: Unreachable ensures ByHost()(a, b) || ByHost()(b, a) {
      AtMostIsTotal(a.host, b.host);
    }
    forall a: Unreachable, b: Unreachable, c: Unreachable | ByHost()(a, b) && ByHost()(b, c) ensures ByHost()(a, c) {
      AtMostIsTransitive(a.host, b.host, c.host);
    }
  }

  function Finished(heard: Heard): Heard {
    heard.(sessions := Sort(ByAge(), heard.sessions),
           unreachable := Sort(ByHost(), heard.unreachable),
           duplicates := Duplicates(heard.answered))
  }

  class Listing {
    var sessions: seq<HostedSession>
    var unreachable: seq<Unreachable>
    var duplicates: seq<Duplicate>
    var answered: seq<Answered>

    function Value(): Heard
      reads this
    {
      Heard(sessions, unreachable, duplicates, answered)
    }

    constructor ()
      ensures Value() == NOTHING
    {
      sessions, unreachable, duplicates, answered := [], [], [], [];
    }

    method Add(host: string, found: Found)
      modifies this
      ensures Value() == With(old(Value()), host, found)
    {
      match found {
        case Ok(answer) =>
          answered := answered + [Answered(host, answer.node)];
          sessions := sessions + RowsOf(host, answer.sessions);
        case Err(e) => unreachable := unreachable + [Unreachable(host, e)];
      }
    }

    /** Notice that two names are one machine, and say which to keep; nothing is dropped for it. */
    method NoteDuplicates()
      modifies this
      ensures Value() == old(Value()).(duplicates := Duplicates(answered))
    {
      var byNode := NamesByNode(answered);
      duplicates := DuplicatesIn(byNode, answered);
    }
  }

  method NamesByNode(answered: seq<Answered>) returns (byNode: map<string, seq<string>>)
    ensures byNode.Keys == NodesOf(answered)
    ensures forall node | node in byNode :: byNode[node] == Map(HostOf(), Filter(OfNode(node), answered))
  {
    hide Map, Filter, NodesOf;
    byNode := map[];
    NobodyAnswered();
    for i := 0 to |answered|
      invariant byNode.Keys == NodesOf(answered[..i])
      invariant forall node | node in byNode :: byNode[node] == Map(HostOf(), Filter(OfNode(node), answered[..i]))
    {
      OneMoreAnswered(answered, i);
      if answered[i].node.Some? {
        var node := answered[i].node.value;
        byNode := byNode[node := (if node in byNode then byNode[node] else []) + [answered[i].host]];
      }
    }
    assert answered[..|answered|] == answered;
  }

  method DuplicatesIn(byNode: map<string, seq<string>>, answered: seq<Answered>) returns (found: seq<Duplicate>)
    requires byNode.Keys == NodesOf(answered)
    requires forall node | node in byNode :: byNode[node] == Map(HostOf(), Filter(OfNode(node), answered))
    ensures found == Duplicates(answered)
  {
    hide Sort, Map, Filter, ByWorth, NodesOf, DuplicatesFor;
    found := [];
    var nodes := Ascend(byNode.Keys);
    NoDuplicates(answered);
    for i := 0 to |nodes|
      invariant found == DuplicatesFor(nodes[..i], answered)
    {
      OneMoreNode(nodes, i, answered);
      assert nodes[i] in nodes;
      var hosts := Sort(ByWorth(), byNode[nodes[i]]);
      if |hosts| < 2 {
        continue;
      }
      found := found + Map((also: string) => Duplicate(hosts[0], also), hosts[1..]);
    }
    assert nodes[..|nodes|] == nodes;
  }

  lemma NoDuplicates(answered: seq<Answered>)
    ensures DuplicatesFor([], answered) == []
  {
  }

  lemma OneMoreNode(nodes: seq<string>, i: nat, answered: seq<Answered>)
    requires i < |nodes|
    ensures var before, hosts := DuplicatesFor(nodes[..i], answered), NamesOf(nodes[i], answered);
            DuplicatesFor(nodes[..i + 1], answered) ==
            if |hosts| < 2 then before else before + Map((also: string) => Duplicate(hosts[0], also), hosts[1..])
  {
    hide NamesOf, Map;
    assert nodes[..i + 1][..i] == nodes[..i];
  }

  lemma NobodyAnswered()
    ensures NodesOf([]) == {}
  {
  }

  lemma OneMoreAnswered(answered: seq<Answered>, i: nat)
    requires i < |answered|
    ensures NodesOf(answered[..i + 1])
         == NodesOf(answered[..i]) + (if answered[i].node.Some? then {answered[i].node.value} else {})
    ensures forall node :: Map(HostOf(), Filter(OfNode(node), answered[..i + 1]))
              == Map(HostOf(), Filter(OfNode(node), answered[..i]))
               + (if answered[i].node == Some(node) then [answered[i].host] else [])
    ensures forall node | node !in NodesOf(answered[..i]) :: Map(HostOf(), Filter(OfNode(node), answered[..i])) == []
  {
    var before, after := answered[..i], answered[..i + 1];
    forall node ensures node in NodesOf(after) <==> node in NodesOf(before) || answered[i].node == Some(node) {
      if node in NodesOf(before) {
        var k :| 0 <= k < |before| && before[k].node == Some(node);
        assert after[k].node == Some(node);
      }
      if answered[i].node == Some(node) { assert after[i].node == Some(node); }
    }
    forall node
      ensures Map(HostOf(), Filter(OfNode(node), after))
           == Map(HostOf(), Filter(OfNode(node), before)) + (if answered[i].node == Some(node) then [answered[i].host] else [])
      ensures node !in NodesOf(before) ==> Map(HostOf(), Filter(OfNode(node), before)) == []
    {
      FilterOneMore(OfNode(node), answered, i);
      FilterAll(OfNode(node), before);
    }
  }

  // ----- How many are asked at once -----

  const MAX_QUERIES: nat := 16

  /**
    Hosts by their place in the list: how many have been asked, who is still out, and
    who has come back in what order.
   */
  datatype Flight = Flight(next: nat, asked: set<nat>, done: seq<nat>)

  function FirstOf(n: nat): nat {
    if n < MAX_QUERIES then n else MAX_QUERIES
  }

  function UpTo(m: nat): (r: set<nat>)
    ensures |r| == m && forall i: nat :: i in r <==> i < m
  {
    if m == 0 then {} else UpTo(m - 1) + {m - 1}
  }

  function TakeOff(n: nat): Flight {
    Flight(FirstOf(n), UpTo(FirstOf(n)), [])
  }

  /** One comes back, and the next goes out if there is one. */
  function Land(n: nat, f: Flight, i: nat): Flight {
    var rest := f.asked - {i};
    if f.next < n then Flight(f.next + 1, rest + {f.next}, f.done + [i]) else Flight(f.next, rest, f.done + [i])
  }

  function After(n: nat, order: seq<nat>): Flight {
    if order == [] then TakeOff(n) else Land(n, After(n, order[..|order| - 1]), order[|order| - 1])
  }

  /** An order hosts can come back in: each is out when it does. */
  ghost predicate Flies(n: nat, order: seq<nat>) {
    forall k | 0 <= k < |order| :: order[k] in After(n, order[..k]).asked
  }

  lemma FliesBefore(n: nat, order: seq<nat>)
    requires Flies(n, order) && order != []
    ensures Flies(n, order[..|order| - 1]) && order[|order| - 1] in After(n, order[..|order| - 1]).asked
  {
    var before := order[..|order| - 1];
    forall k | 0 <= k < |before| ensures before[k] in After(n, before[..k]).asked {
      assert before[..k] == order[..k];
    }
  }

  /** As many out as may be, or everybody asked; each of those asked out or back, and never both. */
  ghost predicate Steady(n: nat, f: Flight) {
    && Distinct(f.done)
    && (forall i | i in f.asked :: i < f.next && i !in f.done)
    && (forall i | i in f.done :: i < f.next)
    && (forall i: nat | i < f.next :: i in f.asked || i in f.done)
    && |f.asked| + |f.done| == f.next <= n
    && |f.asked| <= MAX_QUERIES && (f.next == n || |f.asked| == MAX_QUERIES)
  }

  lemma LandingIsSteady(n: nat, f: Flight, i: nat)
    requires Steady(n, f) && i in f.asked
    ensures Steady(n, Land(n, f, i))
  {
    var rest := f.asked - {i};
    assert f.next !in rest && |rest| == |f.asked| - 1;
    assert forall x :: x in f.done + [i] <==> x in f.done || x == i;
  }

  lemma TakingOffIsSteady(n: nat)
    ensures Steady(n, TakeOff(n))
  {
  }

  lemma {:induction false} AlwaysSteady(n: nat, order: seq<nat>)
    requires Flies(n, order)
    ensures Steady(n, After(n, order)) && After(n, order).done == order
    decreases |order|
  {
    hide Steady, TakeOff, Flies;
    if order == [] {
      TakingOffIsSteady(n);
      assert TakeOff(n).done == [] by { NobodyBack(n); }
    } else {
      var before, i := order[..|order| - 1], order[|order| - 1];
      FliesBefore(n, order);
      AlwaysSteady(n, before);
      LandingIsSteady(n, After(n, before), i);
      assert order == before + [i];
    }
  }

  lemma NobodyBack(n: nat)
    ensures TakeOff(n).done == []
  {
  }

  /**
    However they come back, there are never more than sixteen out and never fewer
    than there could be, nobody answers twice or unasked, and nobody is out any
    more exactly when everybody has come back.
   */
  lemma NeverMoreThanSixteen(n: nat, order: seq<nat>)
    requires Flies(n, order)
    ensures |order| <= n && Distinct(order) && Within(order, n)
    ensures |After(n, order).asked| == if n - |order| < MAX_QUERIES then n - |order| else MAX_QUERIES
    ensures After(n, order).asked == {} <==> |order| == n
    ensures |order| == n ==> forall i: nat :: i in order <==> i < n
  {
    hide After;
    AlwaysSteady(n, order);
    forall k | 0 <= k < |order| ensures order[k] < n { assert order[k] in order; }
    if |order| == n { assert |After(n, order).asked| == 0; }
  }

  // ----- What is made of the answers -----

  /** A query that did not finish at all adds nothing. */
  type Outcome = Option<Found>

  predicate Within(order: seq<nat>, n: nat) {
    forall k | 0 <= k < |order| :: order[k] < n
  }

  function GatheredFrom(hosts: seq<string>, outcomes: seq<Outcome>, order: seq<nat>): Heard
    requires |hosts| == |outcomes| && Within(order, |hosts|)
  {
    if order == [] then NOTHING
    else
      var before := GatheredFrom(hosts, outcomes, order[..|order| - 1]);
      var i := order[|order| - 1];
      match outcomes[i]
      case Some(found) => With(before, hosts[i], found)
      case None => before
  }

  function SessionsFrom(hosts: seq<string>, outcomes: seq<Outcome>): nat -> seq<HostedSession> {
    (i: nat) =>
      if i < |hosts| && i < |outcomes| && outcomes[i].Some? && outcomes[i].value.Ok?
      then RowsOf(hosts[i], outcomes[i].value.value.sessions) else []
  }

  function AnsweredFrom(hosts: seq<string>, outcomes: seq<Outcome>): nat -> seq<Answered> {
    (i: nat) =>
      if i < |hosts| && i < |outcomes| && outcomes[i].Some? && outcomes[i].value.Ok?
      then [Answered(hosts[i], outcomes[i].value.value.node)] else []
  }

  function UnreachableFrom(hosts: seq<string>, outcomes: seq<Outcome>): nat -> seq<Unreachable> {
    (i: nat) =>
      if i < |hosts| && i < |outcomes| && outcomes[i].Some? && outcomes[i].value.Err?
      then [Unreachable(hosts[i], outcomes[i].value.error)] else []
  }

  lemma {:induction false} GatheredInPieces(hosts: seq<string>, outcomes: seq<Outcome>, order: seq<nat>)
    requires |hosts| == |outcomes| && Within(order, |hosts|)
    ensures var heard := GatheredFrom(hosts, outcomes, order);
            && heard.sessions == Pieces(SessionsFrom(hosts, outcomes), order)
            && heard.answered == Pieces(AnsweredFrom(hosts, outcomes), order)
            && heard.unreachable == Pieces(UnreachableFrom(hosts, outcomes), order)
            && heard.duplicates == []
    decreases |order|
  {
    if order != [] {
      var before := order[..|order| - 1];
      GatheredInPieces(hosts, outcomes, before);
    }
  }

  /** Rows that tie are one machine's, so no two machines' rows do. */
  lemma {:induction false} TiesAreOneHosts(x: HostedSession, host: string, sessions: seq<SessionInfo>)
    ensures x.host != host ==> Ties(ByAge(), x, RowsOf(host, sessions)) == []
  {
    if sessions != [] && x.host != host {
      TiesAreOneHosts(x, host, sessions[1..]);
      assert RowsOf(host, sessions)[1..] == RowsOf(host, sessions[1..]);
      AtMostIsTotal(x.host, host);
    }
  }

  lemma SortedSessionsForgetOrder(hosts: seq<string>, outcomes: seq<Outcome>, a: seq<nat>, b: seq<nat>)
    requires |hosts| == |outcomes| && Distinct(hosts)
    requires Distinct(a) && Distinct(b) && (forall i :: i in a <==> i in b) && Within(a, |hosts|) && Within(b, |hosts|)
    ensures Sort(ByAge(), GatheredFrom(hosts, outcomes, a).sessions)
         == Sort(ByAge(), GatheredFrom(hosts, outcomes, b).sessions)
  {
    hide Sort, RowsOf;
    var piece := SessionsFrom(hosts, outcomes);
    ByAgeIsTotal();
    GatheredInPieces(hosts, outcomes, a);
    GatheredInPieces(hosts, outcomes, b);
    forall x, i, j | i in a && j in a && i != j
      ensures Ties(ByAge(), x, piece(i)) == [] || Ties(ByAge(), x, piece(j)) == []
    {
      assert hosts[i] != hosts[j];
      var other := if x.host == hosts[i] then j else i;
      if piece(other) != [] { TiesAreOneHosts(x, hosts[other], outcomes[other].value.value.sessions); }
    }
    SortedPiecesForgetOrder(ByAge(), piece, a, b);
  }

  lemma SortedMissesForgetOrder(hosts: seq<string>, outcomes: seq<Outcome>, a: seq<nat>, b: seq<nat>)
    requires |hosts| == |outcomes| && Distinct(hosts)
    requires Distinct(a) && Distinct(b) && (forall i :: i in a <==> i in b) && Within(a, |hosts|) && Within(b, |hosts|)
    ensures Sort(ByHost(), GatheredFrom(hosts, outcomes, a).unreachable)
         == Sort(ByHost(), GatheredFrom(hosts, outcomes, b).unreachable)
  {
    hide Sort;
    var piece := UnreachableFrom(hosts, outcomes);
    ByHostIsTotal();
    GatheredInPieces(hosts, outcomes, a);
    GatheredInPieces(hosts, outcomes, b);
    forall x, i, j | i in a && j in a && i != j
      ensures Ties(ByHost(), x, piece(i)) == [] || Ties(ByHost(), x, piece(j)) == []
    {
      assert hosts[i] != hosts[j];
      AtMostIsTotal(x.host, hosts[i]);
      AtMostIsTotal(x.host, hosts[j]);
    }
    SortedPiecesForgetOrder(ByHost(), piece, a, b);
  }

  lemma {:induction false} DuplicatesForAgree(nodes: seq<string>, a: seq<Answered>, b: seq<Answered>)
    requires multiset(a) == multiset(b)
    ensures DuplicatesFor(nodes, a) == DuplicatesFor(nodes, b)
    decreases |nodes|
  {
    if nodes != [] {
      var node := nodes[|nodes| - 1];
      DuplicatesForAgree(nodes[..|nodes| - 1], a, b);
      ByWorthIsTotal();
      FilterForgetsOrder(OfNode(node), a, b);
      MapForgetsOrder(HostOf(), Filter(OfNode(node), a), Filter(OfNode(node), b));
      SortForgetsAll(ByWorth(), Map(HostOf(), Filter(OfNode(node), a)), Map(HostOf(), Filter(OfNode(node), b)));
    }
  }

  /** Who answered, and who is who, depend on the answers and not on their order. */
  lemma WhoAnsweredForgetsOrder(a: seq<Answered>, b: seq<Answered>)
    requires multiset(a) == multiset(b)
    ensures Duplicates(a) == Duplicates(b) && Answering(a) == Answering(b) && Reached(a) == Reached(b)
  {
    hide Sort, Dedup, Filter, DuplicatesFor;
    assert forall x :: x in a <==> x in multiset(a);
    assert forall x :: x in b <==> x in multiset(b);
    assert NodesOf(a) == NodesOf(b) by { SameNodes(a, b); SameNodes(b, a); }
    DuplicatesForAgree(Ascend(NodesOf(a)), a, b);
    ByNameIsTotal();
    MapForgetsOrder(HostOf(), a, b);
    SortForgetsAll(ByName(), Map(HostOf(), a), Map(HostOf(), b));
    ReachedForgetsOrder(Map(HostOf(), a), Map(HostOf(), b));
  }

  lemma SameNodes(a: seq<Answered>, b: seq<Answered>)
    requires forall x | x in a :: x in b
    ensures NodesOf(a) <= NodesOf(b)
  {
    forall node | node in NodesOf(a) ensures node in NodesOf(b) {
      var i :| 0 <= i < |a| && a[i].node == Some(node);
      assert a[i] in b;
      var k :| 0 <= k < |b| && b[k] == a[i];
    }
  }

  function Away(): string -> bool {
    (host: string) => !IsThisMachine(host)
  }

  lemma ReachedForgetsOrder(a: seq<string>, b: seq<string>)
    requires multiset(a) == multiset(b)
    ensures Sort(ByName(), Filter(Away(), a)) == Sort(ByName(), Filter(Away(), b))
  {
    hide Sort;
    ByNameIsTotal();
    FilterForgetsOrder(Away(), a, b);
    SortForgetsAll(ByName(), Filter(Away(), a), Filter(Away(), b));
  }

  /** A listing as everything downstream sees it. */
  ghost predicate SameListing(a: Heard, b: Heard) {
    && a.sessions == b.sessions && a.unreachable == b.unreachable && a.duplicates == b.duplicates
    && Answering(a.answered) == Answering(b.answered) && Reached(a.answered) == Reached(b.answered)
  }

  /** Of distinct hosts, the same listing whatever order they come back in. */
  lemma OrderDoesNotMatter(hosts: seq<string>, outcomes: seq<Outcome>, a: seq<nat>, b: seq<nat>)
    requires |hosts| == |outcomes| && Distinct(hosts)
    requires Flies(|hosts|, a) && Flies(|hosts|, b) && |a| == |b| == |hosts|
    ensures Within(a, |hosts|) && Within(b, |hosts|)
    ensures SameListing(Finished(GatheredFrom(hosts, outcomes, a)), Finished(GatheredFrom(hosts, outcomes, b)))
  {
    hide Sort, Duplicates, Answering, Reached, GatheredFrom, After;
    NeverMoreThanSixteen(|hosts|, a);
    NeverMoreThanSixteen(|hosts|, b);
    SortedSessionsForgetOrder(hosts, outcomes, a, b);
    SortedMissesForgetOrder(hosts, outcomes, a, b);
    GatheredInPieces(hosts, outcomes, a);
    GatheredInPieces(hosts, outcomes, b);
    SameElementsOnce(a, b);
    PiecesAreGathered(AnsweredFrom(hosts, outcomes), a);
    PiecesAreGathered(AnsweredFrom(hosts, outcomes), b);
    GatheredForgetsOrder(AnsweredFrom(hosts, outcomes), a, b);
    WhoAnsweredForgetsOrder(GatheredFrom(hosts, outcomes, a).answered, GatheredFrom(hosts, outcomes, b).answered);
  }

  lemma SameElementsOnce(a: seq<nat>, b: seq<nat>)
    requires Distinct(a) && Distinct(b) && forall i :: i in a <==> i in b
    ensures multiset(a) == multiset(b)
  {
    DistinctCounts(a);
    DistinctCounts(b);
    forall i: nat ensures multiset(a)[i] == multiset(b)[i] {
      assert i in multiset(a) <==> i in a;
      assert i in multiset(b) <==> i in b;
    }
  }

  // ----- The fan-out -----

  /** Every host asked, this machine first; whichever comes back next is whichever comes back next. */
  method ListHosts(hosts: seq<string>, outcomes: seq<Outcome>) returns (listing: Listing, ghost order: seq<nat>)
    requires |outcomes| == |hosts| + 1
    ensures fresh(listing)
    ensures Flies(|hosts| + 1, order) && |order| == |hosts| + 1 && Within(order, |hosts| + 1)
    ensures listing.Value() == Finished(GatheredFrom([THIS_MACHINE] + hosts, outcomes, order))
  {
    hide Duplicates, Sort, Within, Flies, GatheredFrom;
    listing, order := Collect([THIS_MACHINE] + hosts, outcomes);
    listing.NoteDuplicates();
    listing.sessions := Sort(ByAge(), listing.sessions);
    listing.unreachable := Sort(ByHost(), listing.unreachable);
  }

  lemma UpToOneMore(m: nat)
    ensures UpTo(0) == {} && UpTo(m + 1) == UpTo(m) + {m}
  {
  }

  method FirstQueries(n: nat) returns (next: nat, asked: set<nat>)
    ensures Flight(next, asked, []) == TakeOff(n)
  {
    hide UpTo;
    next, asked := 0, {};
    UpToOneMore(0);
    while next < n && next < MAX_QUERIES
      invariant next <= FirstOf(n) && asked == UpTo(next)
    {
      UpToOneMore(next);
      asked, next := asked + {next}, next + 1;
    }
  }

  method Collect(all: seq<string>, outcomes: seq<Outcome>) returns (listing: Listing, ghost order: seq<nat>)
    requires |outcomes| == |all|
    ensures fresh(listing)
    ensures Flies(|all|, order) && |order| == |all| && Within(order, |all|)
    ensures listing.Value() == GatheredFrom(all, outcomes, order)
  {
    hide Within, Flies, After, GatheredFrom, With, TakeOff;
    var n := |all|;
    listing := new Listing();
    order := [];
    var next, asked := FirstQueries(n);
    NobodyLandedYet(all, outcomes);
    while asked != {}
      invariant fresh(listing)
      invariant Flies(n, order) && Within(order, n) && |order| <= n && After(n, order) == Flight(next, asked, order)
      invariant listing.Value() == GatheredFrom(all, outcomes, order)
      decreases n - |order|
    {
      var i :| i in asked;
      OneMoreLands(all, outcomes, order, i);
      order := order + [i];
      match outcomes[i] {
        case Some(found) => listing.Add(all[i], found);
        case None =>
      }
      asked := asked - {i};
      if next < n {
        asked, next := asked + {next}, next + 1;
      }
    }
    NeverMoreThanSixteen(n, order);
  }

  lemma NobodyLandedYet(hosts: seq<string>, outcomes: seq<Outcome>)
    requires |outcomes| == |hosts|
    ensures Flies(|hosts|, []) && Within([], |hosts|) && After(|hosts|, []) == TakeOff(|hosts|)
    ensures GatheredFrom(hosts, outcomes, []) == NOTHING
  {
  }

  lemma OneMoreLands(hosts: seq<string>, outcomes: seq<Outcome>, before: seq<nat>, i: nat)
    requires |outcomes| == |hosts| && Within(before, |hosts|)
    requires Flies(|hosts|, before) && i in After(|hosts|, before).asked
    ensures i < |hosts| && Flies(|hosts|, before + [i]) && Within(before + [i], |hosts|) && |before| < |hosts|
    ensures After(|hosts|, before + [i]) == Land(|hosts|, After(|hosts|, before), i)
    ensures GatheredFrom(hosts, outcomes, before + [i])
         == match outcomes[i] case Some(found) => With(GatheredFrom(hosts, outcomes, before), hosts[i], found)
                              case None => GatheredFrom(hosts, outcomes, before)
  {
    hide With, Steady;
    var n, order := |hosts|, before + [i];
    assert order[..|before|] == before;
    OneMoreFlies(n, before, i);
    AlwaysSteady(n, before);
    NeverMoreThanSixteen(n, order);
    assert order[|before|] == i;
  }

  lemma OneMoreFlies(n: nat, before: seq<nat>, i: nat)
    requires Flies(n, before) && i in After(n, before).asked
    ensures Flies(n, before + [i])
  {
    var order := before + [i];
    forall k | 0 <= k < |order| ensures order[k] in After(n, order[..k]).asked {
      assert order[..k] == before[..k];
      assert before[..|before|] == before;
    }
  }

  // ----- What it says -----

  lemma SortedOnce(names: seq<string>)
    ensures Ascending(ByName(), Dedup(Sort(ByName(), names)))
    ensures forall name :: name in Dedup(Sort(ByName(), names)) <==> name in names
  {
    hide Sort, Dedup, ByName;
    ByNameIsTotal();
    SortSorts(ByName(), names);
    DedupOfSorted(ByName(), Sort(ByName(), names));
    assert forall name :: name in Sort(ByName(), names) <==> name in multiset(Sort(ByName(), names));
    assert forall name :: name in names <==> name in multiset(names);
  }

  /** In order and once each, the machines that answered; and of those, the ones that are not this machine. */
  lemma AnsweringIsWhoAnswered(answered: seq<Answered>, host: string)
    ensures Ascending(ByName(), Answering(answered)) && Ascending(ByName(), Reached(answered))
    ensures host in Answering(answered) <==> exists node :: Answered(host, node) in answered
    ensures host in Reached(answered) <==> host in Answering(answered) && !IsThisMachine(host)
  {
    hide Sort, Dedup, ByName, IsThisMachine;
    var hosts := Map(HostOf(), answered);
    SortedOnce(hosts);
    SortedOnce(Filter(Away(), hosts));
    FilterKeeps(Away(), hosts);
    if i :| 0 <= i < |answered| && answered[i].host == host {
      assert hosts[i] == host && Answered(host, answered[i].node) in answered;
    }
    if node :| Answered(host, node) in answered {
      var i :| 0 <= i < |answered| && answered[i] == Answered(host, node);
      assert hosts[i] == host;
    }
  }

  /** Every row of a listing is on a machine that answered it. */
  lemma EveryRowAnswered(hosts: seq<string>, outcomes: seq<Outcome>, order: seq<nat>)
    requires |hosts| == |outcomes| && Within(order, |hosts|)
    ensures var heard := Finished(GatheredFrom(hosts, outcomes, order));
            Snapshots.Honest(heard.sessions, Answering(heard.answered))
  {
    hide Sort, Dedup, ByAge, Duplicates, GatheredFrom;
    var gathered := GatheredFrom(hosts, outcomes, order);
    var sessions := Finished(gathered).sessions;
    ByAgeIsTotal();
    SortSorts(ByAge(), gathered.sessions);
    forall k | 0 <= k < |sessions| ensures Snapshots.Answers(Answering(gathered.answered), sessions[k].host) {
      assert sessions[k] in multiset(gathered.sessions);
      var node := RowsComeWithAnswers(hosts, outcomes, order, sessions[k]);
      AnsweringIsWhoAnswered(gathered.answered, sessions[k].host);
      var i :| 0 <= i < |Answering(gathered.answered)| && Answering(gathered.answered)[i] == sessions[k].host;
      assert SameMachine(Answering(gathered.answered)[i], sessions[k].host);
    }
  }

  lemma {:induction false} RowsComeWithAnswers(hosts: seq<string>, outcomes: seq<Outcome>, order: seq<nat>,
          row: HostedSession)
    returns (node: Option<string>)
    requires |hosts| == |outcomes| && Within(order, |hosts|)
    requires row in GatheredFrom(hosts, outcomes, order).sessions
    ensures Answered(row.host, node) in GatheredFrom(hosts, outcomes, order).answered
    decreases |order|
  {
    var before := GatheredFrom(hosts, outcomes, order[..|order| - 1]);
    if row in before.sessions {
      node := RowsComeWithAnswers(hosts, outcomes, order[..|order| - 1], row);
    } else {
      var i := order[|order| - 1];
      node := outcomes[i].value.value.node;
      assert row in RowsOf(hosts[i], outcomes[i].value.value.sessions);
    }
  }

  /** What one host's answer, if it gave one, says of a row. */
  predicate Said(hosts: seq<string>, outcomes: seq<Outcome>, i: nat, row: HostedSession)
    requires i < |hosts| == |outcomes|
  {
    && outcomes[i].Some? && outcomes[i].value.Ok?
    && row.host == hosts[i] && row.session in outcomes[i].value.value.sessions
  }

  /** Nothing is lost or made up: the rows are those the hosts gave, in order by machine and then oldest first. */
  lemma RowsAreTheAnswers(hosts: seq<string>, outcomes: seq<Outcome>, order: seq<nat>, row: HostedSession)
    requires |hosts| == |outcomes| && Within(order, |hosts|)
    ensures var sessions := Finished(GatheredFrom(hosts, outcomes, order)).sessions;
            && Sorted(ByAge(), sessions)
            && (row in sessions <==> exists k :: 0 <= k < |order| && Said(hosts, outcomes, order[k], row))
  {
    hide Sort, ByAge, Duplicates, GatheredFrom, RowsOf;
    var piece := SessionsFrom(hosts, outcomes);
    ByAgeIsTotal();
    GatheredInPieces(hosts, outcomes, order);
    SortSorts(ByAge(), Pieces(piece, order));
    PiecesContain(piece, order, row);
    var sessions := Sort(ByAge(), Pieces(piece, order));
    assert row in sessions <==> row in multiset(Pieces(piece, order));
    forall k | 0 <= k < |order| ensures row in piece(order[k]) <==> Said(hosts, outcomes, order[k], row) {
      RowsOfContain(hosts[order[k]], outcomes[order[k]], row);
    }
  }

  lemma RowsOfContain(host: string, outcome: Outcome, row: HostedSession)
    ensures outcome.Some? && outcome.value.Ok? ==>
              var sessions := outcome.value.value.sessions;
              row in RowsOf(host, sessions) <==> row.host == host && row.session in sessions
  {
    if outcome.Some? && outcome.value.Ok? {
      var sessions := outcome.value.value.sessions;
      if row.host == host && row.session in sessions {
        var i :| 0 <= i < |sessions| && sessions[i] == row.session;
        assert RowsOf(host, sessions)[i] == row;
      }
    }
  }

  predicate IsName(node: string, name: string, answered: seq<Answered>) {
    Answered(name, Some(node)) in answered
  }

  /** A pair said to be one machine: another name for it, and the best of all its names. */
  ghost predicate SaidToBeOne(node: string, d: Duplicate, answered: seq<Answered>) {
    && IsName(node, d.knownAs, answered) && IsName(node, d.also, answered) && d.also != d.knownAs
    && forall name | IsName(node, name, answered) :: ByWorth()(d.knownAs, name)
  }

  /**
    Of machines asked under distinct names: each shared node's names but the best are
    said to be the best, and nothing else is.
   */
  lemma AllNamesButTheBest(answered: seq<Answered>, d: Duplicate)
    requires Distinct(Map(HostOf(), answered))
    ensures d in Duplicates(answered) <==> exists node :: SaidToBeOne(node, d, answered)
  {
    hide DuplicatesFor, NamesOf;
    var nodes := Ascend(NodesOf(answered));
    DuplicatesInNodes(nodes, answered, d);
    if node :| node in nodes && d in AlsoKnown(NamesOf(node, answered)) {
      AlsoKnownIsAllButTheBest(node, answered, d);
    }
    if node :| SaidToBeOne(node, d, answered) {
      AlsoKnownIsAllButTheBest(node, answered, d);
      var i :| 0 <= i < |answered| && answered[i] == Answered(d.also, Some(node));
      assert node in NodesOf(answered);
    }
  }

  lemma {:induction false} DuplicatesInNodes(nodes: seq<string>, answered: seq<Answered>, d: Duplicate)
    ensures d in DuplicatesFor(nodes, answered) <==> exists node :: node in nodes && d in AlsoKnown(NamesOf(node, answered))
    decreases |nodes|
  {
    if nodes != [] {
      hide AlsoKnown, NamesOf;
      var before := nodes[..|nodes| - 1];
      DuplicatesInNodes(before, answered, d);
      assert forall node :: node in nodes <==> node in before || node == nodes[|nodes| - 1];
    }
  }

  lemma NamesAreSorted(node: string, answered: seq<Answered>)
    ensures Sorted(ByWorth(), NamesOf(node, answered))
    ensures multiset(NamesOf(node, answered)) == multiset(Map(HostOf(), Filter(OfNode(node), answered)))
  {
    ByWorthIsTotal();
    SortSorts(ByWorth(), Map(HostOf(), Filter(OfNode(node), answered)));
  }

  lemma NamesAreTheNames(node: string, answered: seq<Answered>)
    requires Distinct(Map(HostOf(), answered))
    ensures forall name :: name in NamesOf(node, answered) <==> IsName(node, name, answered)
    ensures Distinct(NamesOf(node, answered))
  {
    hide NamesOf;
    var kept := Filter(OfNode(node), answered);
    FilterKeeps(OfNode(node), answered);
    NamesAreSorted(node, answered);
    FilterOfDistinct(HostOf(), OfNode(node), answered);
    DistinctCounts(Map(HostOf(), kept));
    DistinctCounts(NamesOf(node, answered));
    forall name ensures name in NamesOf(node, answered) <==> IsName(node, name, answered) {
      assert name in NamesOf(node, answered) <==> name in multiset(Map(HostOf(), kept));
      if k :| 0 <= k < |kept| && kept[k].host == name {
        assert kept[k] in kept && kept[k] == Answered(name, Some(node));
      }
      if IsName(node, name, answered) {
        var k :| 0 <= k < |kept| && kept[k] == Answered(name, Some(node));
        assert Map(HostOf(), kept)[k] == name;
      }
    }
  }

  lemma AlsoKnownIsAllButTheBest(node: string, answered: seq<Answered>, d: Duplicate)
    requires Distinct(Map(HostOf(), answered))
    ensures d in AlsoKnown(NamesOf(node, answered)) <==> SaidToBeOne(node, d, answered)
  {
    hide NamesOf, ByWorth, IsName;
    var names := NamesOf(node, answered);
    ByWorthIsTotal();
    NamesAreSorted(node, answered);
    NamesAreTheNames(node, answered);
    if names != [] {
      forall name | name in names ensures ByWorth()(names[0], name) {
        var k :| 0 <= k < |names| && names[k] == name;
      }
      assert names[0] in names;
    }
    if d in AlsoKnown(names) {
      var k :| 0 <= k < |names| - 1 && Duplicate(names[0], names[1..][k]) == d;
      assert names[k + 1] == d.also && names[k + 1] in names;
    }
    if SaidToBeOne(node, d, answered) {
      assert d.knownAs in names && d.also in names;
      assert d.knownAs == names[0];
      var k :| 0 <= k < |names| && names[k] == d.also;
      assert AlsoKnown(names)[k - 1] == d;
    }
  }
}
