/**
  src/client/listed.rs, the snapshot: what every machine last said it was
  running. One fan-out hears from some machines and not from others; this keeps
  the last picture of those that said nothing.
 */
module Snapshots {
  import opened Groups
  import opened Lists
  import opened Sessions
  import opened Text

  /** The fields of a snapshot, as a value. */
  datatype Picture = Picture(sessions: seq<HostedSession>, cached: seq<HostedSession>, answered: seq<string>)

  const NOTHING := Picture([], [], [])

  /** By machine, then oldest first. */
  function ByAge(): (HostedSession, HostedSession) -> bool {
    (a: HostedSession, b: HostedSession) =>
      AtMost(a.host, b.host) && (a.host == b.host ==> a.session.started <= b.session.started)
  }

  lemma ByAgeIsTotal()
    ensures TotalOrder(ByAge())
  {
    forall a: HostedSession, b: HostedSession ensures ByAge()(a, b) || ByAge()(b, a) {
      AtMostIsTotal(a.host, b.host);
    }
    forall a: HostedSession, b: HostedSession, c: HostedSession | ByAge()(a, b) && ByAge()(b, c) ensures ByAge()(a, c) {
      AtMostIsTransitive(a.host, b.host, c.host);
      AtMostIsTotal(a.host, b.host);
    }
  }

  predicate Answers(answered: seq<string>, host: string) {
    exists i | 0 <= i < |answered| :: SameMachine(answered[i], host)
  }

  function Answered(answered: seq<string>): HostedSession -> bool {
    (row: HostedSession) => Answers(answered, row.host)
  }

  /** A live row that is the same session, or has the same address. */
  predicate IsLive(row: HostedSession, live: seq<HostedSession>) {
    exists i | 0 <= i < |live| :: MemberOfRow(live[i]) == MemberOfRow(row) || At(live[i]) == At(row)
  }

  function Retained(newer: Picture): HostedSession -> bool {
    (row: HostedSession) => !Answers(newer.answered, row.host) && !IsLive(row, newer.sessions)
  }

  function Known(p: Picture): seq<HostedSession> {
    if p.cached == [] then p.sessions else p.cached
  }

  /** A picture following another, which is what `Snapshot.Follow` computes. */
  function Following(newer: Picture, previous: Picture): Picture {
    var known := if newer.cached == [] then Known(previous) else newer.cached;
    newer.(cached := Sort(ByAge(), newer.sessions + Filter(Retained(newer), known)))
  }

  /** A row at an address, under either spelling of its machine. */
  predicate IsAt(row: HostedSession, at: Located) {
    SameMachine(row.host, at.host) && row.session.name == at.session
  }

  function Elsewhere(at: Located): HostedSession -> bool {
    (row: HostedSession) => !IsAt(row, at)
  }

  function Named(row: HostedSession, name: string): HostedSession {
    row.(session := row.session.(name := name))
  }

  function RenamedAt(at: Located, name: string): HostedSession -> HostedSession {
    (row: HostedSession) =>
      if SameMachine(row.host, at.host) && row.session.name == at.session then Named(row, name) else row
  }

  function RenamedOf(member: Member, name: string): HostedSession -> HostedSession {
    (row: HostedSession) => if MemberOfRow(row) == member then Named(row, name) else row
  }

  function Forgotten(p: Picture, at: Located): Picture {
    p.(sessions := Filter(Elsewhere(at), p.sessions), cached := Filter(Elsewhere(at), p.cached))
  }

  function Changed(p: Picture, f: HostedSession -> HostedSession): Picture {
    p.(sessions := Map(f, p.sessions), cached := Map(f, p.cached))
  }

  class Snapshot {
    var sessions: seq<HostedSession>
    var cached: seq<HostedSession>
    var answered: seq<string>

    function Value(): Picture
      reads this
    {
      Picture(sessions, cached, answered)
    }

    constructor (sessions: seq<HostedSession>, answered: seq<string>)
      ensures Value() == Picture(sessions, [], answered)
    {
      this.sessions, this.cached, this.answered := sessions, [], answered;
    }

    /** Keep the last picture of the machines that did not answer; an answer replaces its machine's rows. */
    method Follow(previous: Snapshot)
      requires previous != this
      modifies this
      ensures Value() == Following(old(Value()), previous.Value())
    {
      hide Sort, ByAge, MemberOfRow, SameMachine, At;
      var known := if cached == [] then Known(previous.Value()) else cached;
      cached := sessions;
      var i := 0;
      while i < |known|
        invariant 0 <= i <= |known|
        invariant sessions == old(sessions) && answered == old(answered)
        invariant cached == sessions + Filter(Retained(old(Value())), known[..i])
      {
        var row := known[i];
        FilterOneMore(Retained(old(Value())), known, i);
        i := i + 1;
        if exists k | 0 <= k < |answered| :: SameMachine(answered[k], row.host) {
          continue;
        }
        if !exists k | 0 <= k < |sessions| :: MemberOfRow(sessions[k]) == MemberOfRow(row) || At(sessions[k]) == At(row) {
          cached := cached + [row];
        }
      }
      assert known[..i] == known;
      cached := Sort(ByAge(), cached);
    }

    /** Take out a session whose end was seen on its own attach. */
    method Forget(at: Located)
      modifies this
      ensures Value() == Forgotten(old(Value()), at)
      ensures forall row :: row in sessions <==> row in old(sessions) && !IsAt(row, at)
      ensures forall row :: row in cached <==> row in old(cached) && !IsAt(row, at)
    {
      FilterKeeps(Elsewhere(at), sessions);
      FilterKeeps(Elsewhere(at), cached);
      sessions := Filter(Elsewhere(at), sessions);
      cached := Filter(Elsewhere(at), cached);
    }

    /** A confirmed rename, without waiting for the next listing. */
    method Renamed(at: Located, name: string)
      modifies this
      ensures Value() == Changed(old(Value()), RenamedAt(at, name))
    {
      sessions := EachRenamed(sessions, RenamedAt(at, name));
      cached := EachRenamed(cached, RenamedAt(at, name));
    }

    /** The same, for a session known by what no rename changes. */
    method RenamedMember(member: Member, name: string)
      modifies this
      ensures Value() == Changed(old(Value()), RenamedOf(member, name))
    {
      sessions := EachRenamed(sessions, RenamedOf(member, name));
      cached := EachRenamed(cached, RenamedOf(member, name));
    }
  }

  method EachRenamed(rows: seq<HostedSession>, f: HostedSession -> HostedSession) returns (r: seq<HostedSession>)
    ensures r == Map(f, rows)
  {
    r := rows;
    for i := 0 to |rows|
      invariant |r| == |rows|
      invariant forall k | 0 <= k < |r| :: r[k] == if k < i then f(rows[k]) else rows[k]
    {
      r := r[i := f(r[i])];
    }
  }

  // ----- A whole run -----

  datatype Event =
    | Landed(rows: seq<HostedSession>, answered: seq<string>)
    | Ended(at: Located)
    | RenameAt(at: Located, name: string)
    | RenameOf(member: Member, name: string)

  function Step(p: Picture, event: Event): Picture {
    match event
    case Landed(rows, answered) => Following(Picture(rows, [], answered), p)
    case Ended(at) => Forgotten(p, at)
    case RenameAt(at, name) => Changed(p, RenamedAt(at, name))
    case RenameOf(member, name) => Changed(p, RenamedOf(member, name))
  }

  function Run(events: seq<Event>): Picture {
    if events == [] then NOTHING else Step(Run(events[..|events| - 1]), events[|events| - 1])
  }

  /** A listing holds rows only from machines that answered it, as `Fanout.EveryRowAnswered` shows of a fan-out. */
  predicate Honest(rows: seq<HostedSession>, answered: seq<string>) {
    forall i | 0 <= i < |rows| :: Answers(answered, rows[i].host)
  }

  predicate AllHonest(events: seq<Event>) {
    forall i | 0 <= i < |events| && events[i].Landed? :: Honest(events[i].rows, events[i].answered)
  }

  /** The rows on one machine, under any spelling of it. */
  function OnMachine(machine: string): HostedSession -> bool {
    (row: HostedSession) => SameMachine(row.host, machine)
  }

  function On(rows: seq<HostedSession>, machine: string): seq<HostedSession> {
    Filter(OnMachine(machine), rows)
  }

  /** What one machine last said, with every removal and rename seen since: nothing here caches or merges. */
  function LastSaid(events: seq<Event>, machine: string): seq<HostedSession> {
    if events == [] then []
    else
      var before := LastSaid(events[..|events| - 1], machine);
      match events[|events| - 1]
      case Landed(rows, answered) => if Answers(answered, machine) then Sort(ByAge(), On(rows, machine)) else before
      case Ended(at) => Filter(Elsewhere(at), before)
      case RenameAt(at, name) => Map(RenamedAt(at, name), before)
      case RenameOf(member, name) => Map(RenamedOf(member, name), before)
  }

  /** The newest listing's rows, with every removal and rename seen since. */
  function Newest(events: seq<Event>): seq<HostedSession> {
    if events == [] then []
    else
      var before := Newest(events[..|events| - 1]);
      match events[|events| - 1]
      case Landed(rows, _) => rows
      case Ended(at) => Filter(Elsewhere(at), before)
      case RenameAt(at, name) => Map(RenamedAt(at, name), before)
      case RenameOf(member, name) => Map(RenamedOf(member, name), before)
  }

  // ----- What a run keeps -----

  /** Of a machine that answered the newest listing, the cache holds what that listing said. */
  ghost predicate Sound(p: Picture) {
    && Sorted(ByAge(), p.cached)
    && Honest(p.sessions, p.answered)
    && (p.cached == [] ==> p.sessions == [])
    && forall machine | Answers(p.answered, machine) :: On(p.cached, machine) == Sort(ByAge(), On(p.sessions, machine))
  }

  /** Of an honest listing, the second test for a row already there is never the one that decides. */
  lemma LiveRowsAnswered(newer: Picture, row: HostedSession)
    requires Honest(newer.sessions, newer.answered)
    ensures Retained(newer)(row) <==> !Answers(newer.answered, row.host)
  {
    if IsLive(row, newer.sessions) {
      var i :| 0 <= i < |newer.sessions| &&
               (MemberOfRow(newer.sessions[i]) == MemberOfRow(row) || At(newer.sessions[i]) == At(row));
      var k :| 0 <= k < |newer.answered| && SameMachine(newer.answered[k], newer.sessions[i].host);
      assert SameMachine(newer.answered[k], row.host);
    }
  }

  /** Machine by machine: what a listing says where it says anything, and what was known before where it does not. */
  lemma FollowingOn(newer: Picture, previous: Picture, machine: string)
    requires Honest(newer.sessions, newer.answered)
    ensures var known := if newer.cached == [] then Known(previous) else newer.cached;
            On(Following(newer, previous).cached, machine)
            == Sort(ByAge(), On(if Answers(newer.answered, machine) then newer.sessions else known, machine))
  {
    hide Sort, ByAge, SameMachine;
    var known := if newer.cached == [] then Known(previous) else newer.cached;
    var kept := Filter(Retained(newer), known);
    ByAgeIsTotal();
    FilterOfSort(ByAge(), OnMachine(machine), newer.sessions + kept);
    FilterOfConcat(OnMachine(machine), newer.sessions, kept);
    FiltersCommute(OnMachine(machine), Retained(newer), known);
    forall row | row in On(known, machine) ensures Retained(newer)(row) == !Answers(newer.answered, machine) {
      FilterKeeps(OnMachine(machine), known);
      LiveRowsAnswered(newer, row);
      SameAnswer(newer.answered, row.host, machine);
    }
    FilterAll(Retained(newer), On(known, machine));
    if !Answers(newer.answered, machine) {
      forall row | row in newer.sessions ensures !OnMachine(machine)(row) {
        if SameMachine(row.host, machine) { SameAnswer(newer.answered, row.host, machine); }
      }
      FilterAll(OnMachine(machine), newer.sessions);
      assert On(newer.sessions, machine) == [];
      assert [] + On(known, machine) == On(known, machine);
    } else {
      assert On(newer.sessions, machine) + [] == On(newer.sessions, machine);
    }
  }

  lemma SameAnswer(answered: seq<string>, a: string, b: string)
    requires SameMachine(a, b)
    ensures Answers(answered, a) <==> Answers(answered, b)
  {
    if i :| 0 <= i < |answered| && SameMachine(answered[i], a) { assert SameMachine(answered[i], b); }
    if i :| 0 <= i < |answered| && SameMachine(answered[i], b) { assert SameMachine(answered[i], a); }
  }

  lemma LandingIsSound(p: Picture, rows: seq<HostedSession>, answered: seq<string>)
    requires Honest(rows, answered)
    ensures Sound(Following(Picture(rows, [], answered), p))
  {
    hide Sort, ByAge, SameMachine;
    var newer := Picture(rows, [], answered);
    ByAgeIsTotal();
    var merged := rows + Filter(Retained(newer), Known(p));
    SortSorts(ByAge(), merged);
    assert |multiset(merged)| == |merged| && |multiset(Sort(ByAge(), merged))| == |Sort(ByAge(), merged)|;
    forall machine ensures Answers(answered, machine) ==>
        On(Following(newer, p).cached, machine) == Sort(ByAge(), On(rows, machine)) {
      FollowingOn(newer, p, machine);
    }
  }

  lemma ForgettingIsSound(p: Picture, at: Located)
    requires Sound(p)
    ensures Sound(Forgotten(p, at))
  {
    hide Sort, ByAge, SameMachine, Answers;
    var keep := Elsewhere(at);
    ByAgeIsTotal();
    FilterOfSorted(ByAge(), keep, p.cached);
    FilterKeeps(keep, p.sessions);
    FilterKeeps(keep, p.cached);
    forall row | row in Filter(keep, p.sessions) ensures row in Filter(keep, p.cached) && Answers(p.answered, row.host) {
      SessionsAreCached(p, row);
    }
    forall machine | Answers(p.answered, machine)
      ensures On(Filter(keep, p.cached), machine) == Sort(ByAge(), On(Filter(keep, p.sessions), machine))
    {
      FiltersCommute(OnMachine(machine), keep, p.cached);
      FiltersCommute(OnMachine(machine), keep, p.sessions);
      FilterOfSort(ByAge(), keep, On(p.sessions, machine));
    }
    var sessions := Filter(keep, p.sessions);
    forall i | 0 <= i < |sessions| ensures Answers(p.answered, sessions[i].host) {
      assert sessions[i] in sessions;
    }
    if sessions != [] { assert sessions[0] in sessions; }
  }

  lemma SessionsAreCached(p: Picture, row: HostedSession)
    requires Sound(p) && row in p.sessions
    ensures row in p.cached && Answers(p.answered, row.host)
  {
    hide Sort, ByAge;
    var i :| 0 <= i < |p.sessions| && p.sessions[i] == row;
    assert Answers(p.answered, p.sessions[i].host);
    FilterKeeps(OnMachine(row.host), p.sessions);
    FilterKeeps(OnMachine(row.host), p.cached);
    ByAgeIsTotal();
    SortSorts(ByAge(), On(p.sessions, row.host));
    assert row in multiset(On(p.sessions, row.host));
    assert row in On(p.cached, row.host);
  }

  /** A change that moves no row to another machine or another place in its order. */
  ghost predicate KeepsPlace(f: HostedSession -> HostedSession) {
    forall row :: f(row).host == row.host && f(row).session.started == row.session.started
  }

  lemma ChangingIsSound(p: Picture, f: HostedSession -> HostedSession)
    requires Sound(p) && KeepsPlace(f)
    ensures Sound(Changed(p, f))
  {
    hide Sort, SameMachine, Answers;
    assert KeepsOrder(ByAge(), ByAge(), f);
    forall i, j | 0 <= i < j < |p.cached| ensures ByAge()(Map(f, p.cached)[i], Map(f, p.cached)[j]) {
      assert ByAge()(p.cached[i], p.cached[j]);
    }
    forall machine | Answers(p.answered, machine)
      ensures On(Map(f, p.cached), machine) == Sort(ByAge(), On(Map(f, p.sessions), machine))
    {
      FilterOfMap(f, OnMachine(machine), p.cached);
      FilterOfMap(f, OnMachine(machine), p.sessions);
      SortOfMap(ByAge(), ByAge(), f, On(p.sessions, machine));
    }
  }

  lemma {:induction false} RunIsSound(events: seq<Event>)
    requires AllHonest(events)
    ensures Sound(Run(events))
    decreases |events|
  {
    hide Sort, ByAge, SameMachine, Answers;
    if events == [] {
      NobodyAnswersNothing();
    } else {
      var before := events[..|events| - 1];
      RunIsSound(before);
      match events[|events| - 1]
      case Landed(rows, answered) => LandingIsSound(Run(before), rows, answered);
      case Ended(at) => ForgettingIsSound(Run(before), at);
      case RenameAt(at, name) => ChangingIsSound(Run(before), RenamedAt(at, name));
      case RenameOf(member, name) => ChangingIsSound(Run(before), RenamedOf(member, name));
    }
  }

  lemma NobodyAnswersNothing()
    ensures forall machine :: !Answers([], machine)
  {
  }

  /**
    The cache is the last answer of each machine: whatever listings landed and
    whatever ended or was renamed between them, the rows known on any machine are
    the rows that machine last gave, oldest first, less what has gone since. And
    what is taken for fresh is the newest listing and nothing older.
   */
  lemma {:induction false} KnownIsTheLastAnswer(events: seq<Event>, machine: string)
    requires AllHonest(events)
    ensures On(Known(Run(events)), machine) == LastSaid(events, machine)
    ensures Run(events).sessions == Newest(events)
    ensures Sorted(ByAge(), Known(Run(events)))
    decreases |events|
  {
    hide Sort, ByAge, SameMachine, Answers;
    RunIsSound(events);
    if events != [] {
      var before := events[..|events| - 1];
      KnownIsTheLastAnswer(before, machine);
      RunIsSound(before);
      var p := Run(before);
      ByAgeIsTotal();
      match events[|events| - 1]
      case Landed(rows, answered) =>
        FollowingOn(Picture(rows, [], answered), p, machine);
        FilterOfSorted(ByAge(), OnMachine(machine), p.cached);
        SortOfSorted(ByAge(), On(p.cached, machine));
      case Ended(at) => FiltersCommute(OnMachine(machine), Elsewhere(at), p.cached);
      case RenameAt(at, name) => FilterOfMap(RenamedAt(at, name), OnMachine(machine), p.cached);
      case RenameOf(member, name) => FilterOfMap(RenamedOf(member, name), OnMachine(machine), p.cached);
    }
  }

  // ----- An end that was seen -----

  /** Nothing in an event puts a session at an address. */
  predicate PutsNothingAt(event: Event, at: Located) {
    match event
    case Landed(rows, _) => forall i | 0 <= i < |rows| :: !IsAt(rows[i], at)
    case Ended(_) => true
    case RenameAt(was, name) => !SameMachine(was.host, at.host) || name != at.session
    case RenameOf(member, name) => member.host != AsListed(at.host) || name != at.session
  }

  predicate NothingAt(p: Picture, at: Located) {
    && (forall row | row in p.sessions :: !IsAt(row, at))
    && (forall row | row in p.cached :: !IsAt(row, at))
  }

  /**
    A session whose end was seen on its own attach is not listed again, however many
    listings land and whoever fails to answer them, until a machine lists it or
    another session is given its name.
   */
  lemma {:induction false} EndedStaysAway(events: seq<Event>, at: Located, more: seq<Event>)
    requires forall i | 0 <= i < |more| :: PutsNothingAt(more[i], at)
    ensures NothingAt(Run(events + [Ended(at)] + more), at)
    ensures forall row | row in Known(Run(events + [Ended(at)] + more)) :: !IsAt(row, at)
    decreases |more|
  {
    hide Filter, Sort, ByAge, Following, Step, Run, IsAt;
    var all := events + [Ended(at)] + more;
    if more == [] {
      assert all == events + [Ended(at)];
      OneMoreEvent(events, Ended(at));
      ForgettingLeavesNothing(Run(events), at);
    } else {
      var n := |more| - 1;
      EndedStaysAway(events, at, more[..n]);
      assert all == (events + [Ended(at)] + more[..n]) + [more[n]];
      OneMoreEvent(events + [Ended(at)] + more[..n], more[n]);
      StillNothingThere(Run(events + [Ended(at)] + more[..n]), more[n], at);
    }
  }

  lemma OneMoreEvent(events: seq<Event>, event: Event)
    ensures Run(events + [event]) == Step(Run(events), event)
  {
    assert (events + [event])[..|events|] == events;
  }

  lemma ForgettingLeavesNothing(p: Picture, at: Located)
    ensures NothingAt(Step(p, Ended(at)), at)
  {
    FilterKeeps(Elsewhere(at), p.sessions);
    FilterKeeps(Elsewhere(at), p.cached);
  }

  lemma StillNothingThere(p: Picture, event: Event, at: Located)
    requires NothingAt(p, at) && PutsNothingAt(event, at)
    ensures NothingAt(Step(p, event), at)
  {
    hide Filter, Sort, ByAge;
    match event
    case Landed(rows, answered) =>
      var newer := Picture(rows, [], answered);
      var merged := rows + Filter(Retained(newer), Known(p));
      ByAgeIsTotal();
      SortSorts(ByAge(), merged);
      FilterKeeps(Retained(newer), Known(p));
      forall row | row in Following(newer, p).cached ensures !IsAt(row, at) {
        assert row in multiset(merged);
        assert row in rows || row in Filter(Retained(newer), Known(p));
      }
    case Ended(was) =>
      FilterKeeps(Elsewhere(was), p.sessions);
      FilterKeeps(Elsewhere(was), p.cached);
    case RenameAt(was, name) => ChangingPutsNothing(p, RenamedAt(was, name), at);
    case RenameOf(member, name) => ChangingPutsNothing(p, RenamedOf(member, name), at);
  }

  lemma ChangingPutsNothing(p: Picture, f: HostedSession -> HostedSession, at: Located)
    requires NothingAt(p, at) && forall row | !IsAt(row, at) :: !IsAt(f(row), at)
    ensures NothingAt(Changed(p, f), at)
  {
    forall row | row in Map(f, p.sessions) ensures !IsAt(row, at) {
      var i :| 0 <= i < |p.sessions| && f(p.sessions[i]) == row;
    }
    forall row | row in Map(f, p.cached) ensures !IsAt(row, at) {
      var i :| 0 <= i < |p.cached| && f(p.cached[i]) == row;
    }
  }

  // ----- The picture the popup's lister hands back -----

  lemma SortedRowsAreTheirMachines(a: seq<HostedSession>, b: seq<HostedSession>)
    requires Sorted(ByAge(), a) && Sorted(ByAge(), b)
    requires forall machine :: On(a, machine) == On(b, machine)
    ensures a == b
  {
    ByAgeIsTotal();
    forall x ensures Ties(ByAge(), x, a) == Ties(ByAge(), x, b) {
      TiesAreOnTheirMachine(x, a);
      TiesAreOnTheirMachine(x, b);
    }
    SortingIsUnique(ByAge(), a, b);
  }

  lemma TiesAreOnTheirMachine(x: HostedSession, s: seq<HostedSession>)
    ensures Ties(ByAge(), x, s) == Ties(ByAge(), x, On(s, x.host))
  {
    var same := OnMachine(x.host);
    ByAgeIsTotal();
    TiesOfFilter(ByAge(), x, same, s);
    TiesAreTies(ByAge(), x, s);
    forall y | y in Ties(ByAge(), x, s) ensures same(y) { AtMostIsTotal(x.host, y.host); }
    FilterAll(same, Ties(ByAge(), x, s));
  }

  /**
    While the popup is up its lister does the following, and the main loop then
    follows its own older copy with what the lister ended on. That leaves the
    lister's picture as it was exactly when it knows of some session, or when the
    older copy knows none but on machines the lister's last listing heard from.
   */
  lemma AbsorbedStands(lister: Picture, main: Picture)
    requires Sound(lister)
    ensures Following(lister, main) == lister <==>
            lister.cached != [] || forall row | row in Known(main) :: Answers(lister.answered, row.host)
  {
    hide Sort, ByAge, SameMachine, Answers;
    ByAgeIsTotal();
    var after := Following(lister, main);
    if lister.cached != [] {
      forall machine ensures On(after.cached, machine) == On(lister.cached, machine) {
        FollowingOn(lister, main, machine);
        FilterOfSorted(ByAge(), OnMachine(machine), lister.cached);
        SortOfSorted(ByAge(), On(lister.cached, machine));
      }
      SortSorts(ByAge(), lister.sessions + Filter(Retained(lister), lister.cached));
      SortedRowsAreTheirMachines(after.cached, lister.cached);
    } else {
      var kept := Filter(Retained(lister), Known(main));
      FilterKeeps(Retained(lister), Known(main));
      FilterAll(Retained(lister), Known(main));
      forall row | row in Known(main) ensures Retained(lister)(row) <==> !Answers(lister.answered, row.host) {
        LiveRowsAnswered(lister, row);
      }
      assert lister.sessions + kept == kept;
      SortSorts(ByAge(), kept);
      assert |multiset(kept)| == |kept| && |multiset(after.cached)| == |after.cached|;
      if kept == [] { assert after.cached == []; }
    }
  }

  function Said(row: HostedSession): Event { Landed([row], [row.host]) }

  function Shut(row: HostedSession): Event { Landed([], [row.host]) }

  function Silent(): Event { Landed([], []) }

  /**
    And it does happen otherwise. A machine said its one session had closed, then
    did not answer: the lister knows that nothing runs, and handing that back
    brings the closed session's row back.
   */
  lemma ClosedRowComesBack(row: HostedSession)
    ensures var lister := [Said(row), Shut(row), Silent()];
            && AllHonest(lister)
            && Known(Run(lister)) == [] && LastSaid(lister, row.host) == []
            && Known(Following(Run(lister), Run(lister[..1]))) == [row]
  {
    hide *;
    var said, shut, silent := Said(row), Shut(row), Silent();
    var lister := [said, shut, silent];
    HistoryIsHonest(row);
    RunOfSaid(row);
    RunOfShut(row);
    LandedSilent(row);
    RunOneMore([said, shut], silent);
    SilentAnswersNothing(row);
    assert [said, shut] + [silent] == lister && lister[..1] == [said];
  }

  lemma HistoryIsHonest(row: HostedSession)
    ensures AllHonest([Said(row), Shut(row), Silent()])
  {
    hide Answers;
    HostAnswers(row);
  }

  lemma SilentAnswersNothing(row: HostedSession)
    ensures Silent() == Landed([], []) && Picture([], [], []) == NOTHING && Known(NOTHING) == []
    ensures !Answers([], row.host)
    ensures Known(Picture([], [row], [])) == [row]
  {
  }

  lemma RunOfSaid(row: HostedSession)
    ensures Run([Said(row)]) == Picture([row], [row], [row.host])
  {
    hide Following;
    RunOneMore([], Said(row));
    LandedAlone(row);
    assert [] + [Said(row)] == [Said(row)];
  }

  lemma RunOfShut(row: HostedSession)
    ensures Run([Said(row), Shut(row)]) == Picture([], [], [row.host])
    ensures LastSaid([Said(row), Shut(row)], row.host) == []
  {
    hide Following, Sort, Answers, LastSaid, Filter, IsLive, Run;
    RunOfSaid(row);
    RunOneMore([Said(row)], Shut(row));
    LandedClosed(row);
    HostAnswers(row);
    assert [Said(row)] + [Shut(row)] == [Said(row), Shut(row)];
  }

  lemma RunOneMore(events: seq<Event>, event: Event)
    ensures Run(events + [event]) == Step(Run(events), event)
    ensures event.Landed? ==> Run(events + [event]) == Following(Picture(event.rows, [], event.answered), Run(events))
    ensures event.Landed? ==>
              forall machine :: LastSaid(events + [event], machine)
                == if Answers(event.answered, machine) then Sort(ByAge(), On(event.rows, machine)) else LastSaid(events, machine)
  {
    hide Following, Sort, Answers, On;
    assert (events + [event])[..|events|] == events;
  }

  lemma HostAnswers(row: HostedSession)
    ensures Answers([row.host], row.host) && !Answers([], row.host)
    ensures Honest([row], [row.host])
  {
    assert SameMachine([row.host][0], row.host);
  }

  lemma LandedAlone(row: HostedSession)
    ensures Following(Picture([row], [], [row.host]), NOTHING) == Picture([row], [row], [row.host])
  {
    var said := Picture([row], [], [row.host]);
    assert said.sessions + Filter(Retained(said), []) == [row];
    assert [row][1..] == [] && Sort(ByAge(), [row]) == [row];
  }

  lemma LandedClosed(row: HostedSession)
    ensures Following(Picture([], [], [row.host]), Picture([row], [row], [row.host])) == Picture([], [], [row.host])
    ensures Sort(ByAge(), On([], row.host)) == []
  {
    HostAnswers(row);
    var shut := Picture([], [], [row.host]);
    assert !Retained(shut)(row);
    assert Filter(Retained(shut), [row]) == [];
    assert shut.sessions + Filter(Retained(shut), [row]) == [];
  }

  lemma LandedSilent(row: HostedSession)
    ensures Following(NOTHING, Picture([], [], [row.host])) == NOTHING
    ensures Following(NOTHING, Picture([row], [row], [row.host])) == Picture([], [row], [])
  {
    assert Filter(Retained(NOTHING), [row]) == [row];
    assert NOTHING.sessions + Filter(Retained(NOTHING), [row]) == [row];
    assert NOTHING.sessions + Filter(Retained(NOTHING), []) == [];
  }
}
