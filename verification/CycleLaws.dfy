/** What each motion and each change of the cycle means, said of the listing and the trail alone. */
module CycleLaws {
  import opened Cycles
  import opened Lists
  import opened Sessions
  import opened Wrappers
  import RowIds

  // ----- Moving -----

  /** Going somewhere: there, with where it went from at the head of the trail and nothing else disturbed. */
  ghost predicate IsMove(was: Place, now: Place, next: Located) {
    && now.current == next && now.sessions == was.sessions
    && now.trail != [] && now.trail[0] == was.current && next !in now.trail[1..]
    && (next !in was.trail ==> now.trail[1..] == was.trail)
    && forall i | 0 <= i < |was.trail| && was.trail[i] == next && next !in was.trail[..i] && next !in was.trail[i + 1..] ::
         now.trail[1..] == was.trail[..i] + was.trail[i + 1..]
  }

  lemma FilterWithoutOne(trail: seq<Located>, next: Located, i: nat)
    requires i < |trail| && trail[i] == next && next !in trail[..i] && next !in trail[i + 1..]
    ensures Filter(But(next), trail) == trail[..i] + trail[i + 1..]
  {
    hide Filter;
    var front, back := trail[..i], trail[i + 1..];
    FilterAll(But(next), front);
    FilterAll(But(next), back);
    FilterAll(But(next), [next]);
    FilterOfConcat(But(next), front, [next] + back);
    FilterOfConcat(But(next), [next], back);
    TakenApart(trail, i);
    assert [] + back == back;
  }

  lemma TakenApart(trail: seq<Located>, i: nat)
    requires i < |trail|
    ensures trail == trail[..i] + ([trail[i]] + trail[i + 1..])
  {
  }

  lemma MovingMoves(c: Place, next: Located)
    ensures IsMove(c, MovedTo(c, next), next) && MovedTo(c, next).focus == c.focus
    ensures IsMove(c, Started(c, next), next) && Started(c, next).focus == None
  {
    FilterKeeps(But(next), c.trail);
    FilterAll(But(next), c.trail);
    assert ([c.current] + Filter(But(next), c.trail))[1..] == Filter(But(next), c.trail);
    forall i | 0 <= i < |c.trail| && c.trail[i] == next && next !in c.trail[..i] && next !in c.trail[i + 1..]
      ensures Filter(But(next), c.trail) == c.trail[..i] + c.trail[i + 1..]
    {
      FilterWithoutOne(c.trail, next, i);
    }
  }

  /** The way back leads to where the last move was made from, and from there to where it was made to. */
  lemma LastGoesBack(c: Place, next: Located)
    requires next != c.current
    ensures Step(MovedTo(c, next), Last) == Some(c.current)
    ensures var back := MovedTo(MovedTo(c, next), c.current); back.current == c.current && Step(back, Last) == Some(next)
  {
  }

  /** And nowhere where nothing has been left, or what has been left is called what this is. */
  lemma LastGoesNowhere(c: Place)
    ensures Step(c, Last) == None <==> c.trail == [] || c.trail[0] == c.current
  {
  }

  // ----- Forgetting -----

  /** What is gone is out of the trail and the walk, everything else is there still, and nothing moved. */
  lemma ForgettingForgets(c: Place, gone: Located)
    ensures var now := Forgotten(c, gone);
            && now.current == c.current && now.focus == c.focus
            && (forall at :: at in now.trail <==> at in c.trail && at != gone)
            && (forall entry :: entry in now.sessions <==> entry in c.sessions && entry.at != gone)
            && (gone !in c.trail ==> now.trail == c.trail)
            && ((forall entry | entry in c.sessions :: entry.at != gone) ==> now.sessions == c.sessions)
  {
    FilterKeeps(But(gone), c.trail);
    FilterKeeps(EntriesBut(gone), c.sessions);
    FilterAll(But(gone), c.trail);
    FilterAll(EntriesBut(gone), c.sessions);
  }

  /** Back at the head of the trail, with the one that ended forgotten. */
  ghost predicate IsFallBack(was: Place, now: Place)
    requires was.trail != []
  {
    && now.current == was.trail[0] && now.focus == was.focus
    && (forall at :: at in now.trail <==> at in was.trail[1..] && at != was.current)
    && (forall entry :: entry in now.sessions <==> entry in was.sessions && entry.at != was.current)
    && (was.current !in was.trail[1..] ==> now.trail == was.trail[1..])
  }

  lemma FallingBackGoesBack(c: Place)
    ensures if c.trail == [] then FallenBack(c) == c else IsFallBack(c, FallenBack(c))
  {
    hide Forgotten;
    ForgettingForgets(Undone(c), c.current);
  }

  // ----- Renaming and refreshing -----

  /** Another name in every place the address is held at, and nothing else another. */
  ghost predicate IsRename(was: Place, now: Place, at: Located, name: string) {
    var to := Located(at.host, name);
    && now.current == (if was.current == at then to else was.current) && now.focus == was.focus
    && |now.trail| == |was.trail| && |now.sessions| == |was.sessions|
    && (forall k | 0 <= k < |was.trail| :: now.trail[k] == if was.trail[k] == at then to else was.trail[k])
    && (forall k | 0 <= k < |was.sessions| ::
          && now.sessions[k].group == was.sessions[k].group
          && now.sessions[k].at == if was.sessions[k].at == at then to else was.sessions[k].at)
  }

  lemma RenamingRenames(c: Place, at: Located, name: string)
    ensures IsRename(c, RenamedAt(c, at, name), at, name)
  {
  }

  /** The first entry of a session, where it is listed. */
  predicate ListedAt(sessions: seq<Entry>, at: Located, i: int) {
    0 <= i < |sessions| && sessions[i].at == at && forall k | 0 <= k < i :: sessions[k].at != at
  }

  /**
    A listing in place of the one there was, nobody moved; and a narrowing dropped
    exactly when no session listed is in it, or this one is listed out of it.
   */
  ghost predicate IsRefresh(was: Place, now: Place, sessions: seq<Entry>) {
    && now.sessions == sessions && now.current == was.current && now.trail == was.trail
    && (now.focus == was.focus || now.focus == None)
    && (was.focus.Some? ==> (now.focus == None <==>
          || (forall entry | entry in sessions :: entry.group != was.focus)
          || exists i :: ListedAt(sessions, was.current, i) && sessions[i].group != was.focus))
  }

  lemma RefreshingRefreshes(c: Place, sessions: seq<Entry>)
    ensures IsRefresh(c, Refreshed(c, sessions), sessions)
  {
    if c.focus.Some? {
      var here := PositionAt(sessions, c.current);
      if here.Some? { assert ListedAt(sessions, c.current, here.value); }
      if i :| ListedAt(sessions, c.current, i) && sessions[i].group != c.focus {
        assert here == Some(i);
      }
      if entry :| entry in sessions && entry.group == c.focus {
        var k :| 0 <= k < |sessions| && sessions[k] == entry;
        assert sessions[k].group == c.focus;
      }
      if k :| 0 <= k < |sessions| && sessions[k].group == c.focus { assert sessions[k] in sessions; }
    }
  }

  // ----- Tab -----

  /** Where tab may land: in the group narrowed to wherever it runs, or with none on this machine. */
  predicate IsWalked(c: Place, entry: Entry) {
    if c.focus.Some? then entry.group == c.focus else entry.at.host == c.current.host
  }

  function WalkedIn(c: Place): Entry -> bool {
    (entry: Entry) => IsWalked(c, entry)
  }

  predicate WalkedAt(c: Place, i: int) {
    0 <= i < |c.sessions| && IsWalked(c, c.sessions[i])
  }

  lemma {:induction false} FilterAgrees<T>(f: T -> bool, g: T -> bool, s: seq<T>)
    requires forall x :: f(x) == g(x)
    ensures Filter(f, s) == Filter(g, s)
  {
    if s != [] { FilterAgrees(f, g, s[1..]); }
  }

  lemma HereIsTheWalk(c: Place)
    ensures Here(c) == Filter(WalkedIn(c), c.sessions)
  {
    if c.focus.Some? {
      FilterAgrees(InFocus(c.focus), WalkedIn(c), c.sessions);
    } else {
      FilterAll(InFocus(c.focus), c.sessions);
      FilterAgrees(OnHost(c.current.host), WalkedIn(c), c.sessions);
    }
  }

  /** An entry kept is as far on as there are entries kept before it. */
  lemma {:induction false} FilterAt<T>(keep: T -> bool, s: seq<T>, i: nat)
    requires i < |s| && keep(s[i])
    ensures var k := |Filter(keep, s[..i])|; k < |Filter(keep, s)| && Filter(keep, s)[k] == s[i]
  {
    assert s == s[..i] + s[i..];
    FilterOfConcat(keep, s[..i], s[i..]);
  }

  /** Between two kept with none between them there is one step; before the first none, and after the last none. */
  lemma FilterBetween<T>(keep: T -> bool, s: seq<T>, i: nat, j: nat)
    requires i < j <= |s| && forall k | i < k < j :: !keep(s[k])
    ensures |Filter(keep, s[..j])| == |Filter(keep, s[..i])| + if keep(s[i]) then 1 else 0
  {
    assert s[..j] == s[..i] + ([s[i]] + s[i + 1..j]);
    FilterOfConcat(keep, s[..i], [s[i]] + s[i + 1..j]);
    assert ([s[i]] + s[i + 1..j])[1..] == s[i + 1..j];
    FilterAll(keep, s[i + 1..j]);
  }

  /** How many the walk has before some place in the listing. */
  function Before(c: Place, i: nat): nat
    requires i <= |c.sessions|
  {
    |Filter(WalkedIn(c), c.sessions[..i])|
  }

  lemma WalkAt(c: Place, i: nat)
    requires WalkedAt(c, i)
    ensures Before(c, i) < |Here(c)| && Here(c)[Before(c, i)] == c.sessions[i]
  {
    HereIsTheWalk(c);
    FilterAt(WalkedIn(c), c.sessions, i);
  }

  lemma WalkIsDistinct(c: Place)
    requires DistinctEntries(c.sessions)
    ensures DistinctEntries(Here(c))
  {
    var at := (entry: Entry) => entry.at;
    HereIsTheWalk(c);
    assert Distinct(Map(at, c.sessions));
    FilterOfDistinct(at, WalkedIn(c), c.sessions);
    var here := Here(c);
    forall i, j | 0 <= i < j < |here| ensures here[i].at != here[j].at {
      assert Map(at, here)[i] != Map(at, here)[j];
    }
  }

  lemma BeforeNext(c: Place, i: nat, j: nat)
    requires WalkedAt(c, i) && i < j <= |c.sessions| && forall k | i < k < j :: !WalkedAt(c, k)
    ensures Before(c, j) == Before(c, i) + 1
  {
    forall k | i < k < j ensures !WalkedIn(c)(c.sessions[k]) { assert !WalkedAt(c, k); }
    FilterBetween(WalkedIn(c), c.sessions, i, j);
  }

  lemma BeforeFirst(c: Place, j: nat)
    requires j <= |c.sessions| && forall k | 0 <= k < j :: !WalkedAt(c, k)
    ensures Before(c, j) == 0
  {
    forall k | 0 <= k < j ensures !WalkedIn(c)(c.sessions[..j][k]) { assert !WalkedAt(c, k); }
    FilterAll(WalkedIn(c), c.sessions[..j]);
  }

  lemma BeforeEnd(c: Place)
    ensures Before(c, |c.sessions|) == |Here(c)|
  {
    assert c.sessions[..|c.sessions|] == c.sessions;
    HereIsTheWalk(c);
  }

  /** Tab goes to the next session walked in the listing, and from the last one round to the first. */
  lemma TabGoesOn(c: Place, i: nat, j: nat)
    requires DistinctEntries(c.sessions) && WalkedAt(c, i) && c.sessions[i].at == c.current && WalkedAt(c, j) && i != j
    requires (i < j && forall k | i < k < j :: !WalkedAt(c, k))
             || ((forall k | i < k :: !WalkedAt(c, k)) && forall k | k < j :: !WalkedAt(c, k))
    ensures Step(c, Next) == Some(c.sessions[j].at)
  {
    hide Here, Step, Before, Wrapped;
    WalkIsDistinct(c);
    WalkAt(c, i);
    WalkAt(c, j);
    StepsAround(c, Before(c, i));
    if i < j && forall k | i < k < j :: !WalkedAt(c, k) {
      BeforeNext(c, i, j);
    } else {
      BeforeNext(c, i, |c.sessions|);
      BeforeEnd(c);
      BeforeFirst(c, j);
    }
  }

  /** Shift-tab the other way. */
  lemma ShiftTabGoesBack(c: Place, i: nat, j: nat)
    requires DistinctEntries(c.sessions) && WalkedAt(c, i) && c.sessions[i].at == c.current && WalkedAt(c, j) && i != j
    requires (j < i && forall k | j < k < i :: !WalkedAt(c, k))
             || ((forall k | j < k :: !WalkedAt(c, k)) && forall k | k < i :: !WalkedAt(c, k))
    ensures Step(c, Previous) == Some(c.sessions[j].at)
  {
    hide Here, Step, Before, Wrapped;
    WalkIsDistinct(c);
    WalkAt(c, i);
    WalkAt(c, j);
    StepsAround(c, Before(c, i));
    if j < i && forall k | j < k < i :: !WalkedAt(c, k) {
      BeforeNext(c, j, i);
    } else {
      BeforeNext(c, j, |c.sessions|);
      BeforeEnd(c);
      BeforeFirst(c, i);
    }
  }

  /** From a session that is not walked itself: to the first that is, or the last; and nowhere if there is none. */
  lemma TabFromOutside(c: Place, j: nat)
    requires forall k | WalkedAt(c, k) :: c.sessions[k].at != c.current
    ensures (forall k :: !WalkedAt(c, k)) ==> Step(c, Next) == None && Step(c, Previous) == None
    ensures WalkedAt(c, j) && (forall k | k < j :: !WalkedAt(c, k)) ==> Step(c, Next) == Some(c.sessions[j].at)
    ensures WalkedAt(c, j) && (forall k | j < k :: !WalkedAt(c, k)) ==> Step(c, Previous) == Some(c.sessions[j].at)
  {
    hide Here, Before;
    NotOnTheWalk(c);
    if WalkedAt(c, j) {
      WalkAt(c, j);
      if forall k | k < j :: !WalkedAt(c, k) { BeforeFirst(c, j); }
      if forall k | j < k :: !WalkedAt(c, k) {
        BeforeNext(c, j, |c.sessions|);
        BeforeEnd(c);
      }
    }
    BeforeEnd(c);
    if forall k :: !WalkedAt(c, k) { BeforeFirst(c, |c.sessions|); }
  }

  lemma NotOnTheWalk(c: Place)
    requires forall k | WalkedAt(c, k) :: c.sessions[k].at != c.current
    ensures PositionAt(Here(c), c.current) == None
    ensures forall k | 0 <= k < |Here(c)| :: Here(c)[k].at != c.current
  {
    HereIsTheWalk(c);
    FilterKeeps(WalkedIn(c), c.sessions);
    forall k | 0 <= k < |Here(c)| ensures Here(c)[k].at != c.current {
      assert Here(c)[k] in Filter(WalkedIn(c), c.sessions);
      var i :| 0 <= i < |c.sessions| && c.sessions[i] == Here(c)[k];
      assert WalkedAt(c, i);
    }
  }

  /** The only session walked has nowhere to go. */
  lemma TabAlone(c: Place, i: nat)
    requires WalkedAt(c, i) && c.sessions[i].at == c.current && forall k | k != i :: !WalkedAt(c, k)
    ensures Step(c, Next) == None && Step(c, Previous) == None
  {
    hide Here, Before;
    WalkAt(c, i);
    BeforeFirst(c, i);
    BeforeNext(c, i, |c.sessions|);
    BeforeEnd(c);
  }

  // ----- The host keys -----

  /** Inside the narrowing, or anywhere with none. */
  predicate Inside(c: Place, i: int) {
    0 <= i < |c.sessions| && (c.focus == None || c.sessions[i].group == c.focus)
  }

  predicate InsideOn(c: Place, i: int, host: string) {
    Inside(c, i) && c.sessions[i].at.host == host
  }

  /** The first session on a machine. */
  ghost predicate FirstOn(c: Place, i: int, host: string) {
    InsideOn(c, i, host) && forall k | k < i :: !InsideOn(c, k, host)
  }

  /** Some session inside the narrowing, of the first so many, is on a machine. */
  ghost predicate SeenBy(c: Place, n: int, host: string) {
    exists i :: i < n && FirstOn(c, i, host)
  }

  /** The machines there are to go to, each once, in the order their first sessions are listed in. */
  ghost predicate SeenInOrder(hosts: seq<string>, c: Place) {
    && Distinct(hosts)
    && (forall i | Inside(c, i) :: c.sessions[i].at.host in hosts)
    && (forall a | 0 <= a < |hosts| :: SeenBy(c, |c.sessions|, hosts[a]))
    && (forall a, b, i, j | 0 <= a < b < |hosts| && FirstOn(c, i, hosts[a]) && FirstOn(c, j, hosts[b]) :: i < j)
  }

  function Machines(c: Place): seq<string> {
    HostsOf(Visible(c))
  }

  /** The first `n` of a listing, as a listing. */
  function Upto(c: Place, n: nat): Place
    requires n <= |c.sessions|
  {
    c.(sessions := c.sessions[..n])
  }

  lemma {:induction false} MachinesAreSeenInOrder(c: Place)
    ensures SeenInOrder(Machines(c), c)
    decreases |c.sessions|
  {
    if c.sessions == [] {
      assert Machines(c) == [];
    } else {
      var n := |c.sessions| - 1;
      var before := Upto(c, n);
      MachinesAreSeenInOrder(before);
      MachinesOneMore(c);
      hide Machines;
      OneMoreSeen(c);
    }
  }

  lemma MachinesOneMore(c: Place)
    requires c.sessions != []
    ensures var n := |c.sessions| - 1;
            var before, host := Machines(Upto(c, n)), c.sessions[n].at.host;
            Machines(c) == if Inside(c, n) && host !in before then before + [host] else before
  {
    var n := |c.sessions| - 1;
    var last := [c.sessions[n]];
    assert c.sessions == c.sessions[..n] + last;
    FilterOfConcat(InFocus(c.focus), c.sessions[..n], last);
    assert last[1..] == [];
    var kept := Filter(InFocus(c.focus), c.sessions[..n]);
    if Inside(c, n) { assert (kept + last)[..|kept|] == kept; } else { assert kept + [] == kept; }
  }

  lemma SameFirsts(c: Place, n: nat)
    requires n <= |c.sessions|
    ensures forall i | i < n :: Inside(Upto(c, n), i) <==> Inside(c, i)
    ensures forall i, h | i < n :: FirstOn(Upto(c, n), i, h) <==> FirstOn(c, i, h)
    ensures forall i | Inside(Upto(c, n), i) :: i < n
  {
    forall k: int, h | k < n ensures InsideOn(Upto(c, n), k, h) <==> InsideOn(c, k, h) {
    }
  }

  lemma OneMoreSeen(c: Place)
    requires c.sessions != [] && SeenInOrder(Machines(Upto(c, |c.sessions| - 1)), Upto(c, |c.sessions| - 1))
    requires var n := |c.sessions| - 1;
             var before, host := Machines(Upto(c, n)), c.sessions[n].at.host;
             Machines(c) == if Inside(c, n) && host !in before then before + [host] else before
    ensures SeenInOrder(Machines(c), c)
  {
    hide Machines, Upto, Inside, InsideOn;
    var n := |c.sessions| - 1;
    var fewer := Upto(c, n);
    var before, hosts, host := Machines(fewer), Machines(c), c.sessions[n].at.host;
    SameFirsts(c, n);
    ButTheLast(c, before);
    forall a | 0 <= a < |before| ensures SeenBy(c, n, before[a]) {
      assert SeenBy(fewer, |fewer.sessions|, before[a]);
      var i :| FirstOn(fewer, i, before[a]);
      FirstIsInside(fewer, i, before[a]);
      assert i < n && FirstOn(c, i, before[a]);
    }
    forall a | 0 <= a < |before| ensures !FirstOn(c, n, before[a]) {
      var i :| i < n && FirstOn(c, i, before[a]);
      OnlyOneFirst(c, i, n, before[a]);
    }
    if Inside(c, n) && host !in before { NewIsFirst(c, before); }
    forall a, b, i, j | 0 <= a < b < |before| && FirstOn(c, i, before[a]) && FirstOn(c, j, before[b]) ensures i < j {
      FirstIsInside(c, i, before[a]);
      FirstIsInside(c, j, before[b]);
      assert i < n && j < n;
      assert FirstOn(fewer, i, before[a]) && FirstOn(fewer, j, before[b]);
    }
    TogetherInOrder(c, before, hosts);
  }

  lemma FirstIsInside(c: Place, i: int, host: string)
    requires FirstOn(c, i, host)
    ensures Inside(c, i) && 0 <= i < |c.sessions| && c.sessions[i].at.host == host
  {
  }

  lemma OnlyOneFirst(c: Place, i: int, j: int, host: string)
    requires FirstOn(c, i, host) && i < j
    ensures !FirstOn(c, j, host)
  {
    assert InsideOn(c, i, host);
  }

  /** Machines of all but the last session are those of them, whatever the last is. */
  lemma ButTheLast(c: Place, before: seq<string>)
    requires c.sessions != [] && SeenInOrder(before, Upto(c, |c.sessions| - 1))
    ensures forall i | i < |c.sessions| - 1 && Inside(c, i) :: c.sessions[i].at.host in before
  {
    var n := |c.sessions| - 1;
    forall i | i < n && Inside(c, i) ensures c.sessions[i].at.host in before {
      assert Inside(Upto(c, n), i);
    }
  }

  lemma NewIsFirst(c: Place, before: seq<string>)
    requires c.sessions != [] && Inside(c, |c.sessions| - 1) && c.sessions[|c.sessions| - 1].at.host !in before
    requires forall i | i < |c.sessions| - 1 && Inside(c, i) :: c.sessions[i].at.host in before
    ensures FirstOn(c, |c.sessions| - 1, c.sessions[|c.sessions| - 1].at.host)
  {
    var n := |c.sessions| - 1;
    forall k | k < n ensures !InsideOn(c, k, c.sessions[n].at.host) {
      assert Inside(c, k) ==> c.sessions[k].at.host in before;
    }
  }

  lemma TogetherInOrder(c: Place, before: seq<string>, hosts: seq<string>)
    requires c.sessions != [] && Distinct(before)
    requires var n := |c.sessions| - 1;
             var host := c.sessions[n].at.host;
             && hosts == (if Inside(c, n) && host !in before then before + [host] else before)
             && (Inside(c, n) && host !in before ==> FirstOn(c, n, host))
    requires forall i | i < |c.sessions| - 1 && Inside(c, i) :: c.sessions[i].at.host in before
    requires forall a | 0 <= a < |before| :: SeenBy(c, |c.sessions| - 1, before[a])
    requires forall a, b, i, j | 0 <= a < b < |before| && FirstOn(c, i, before[a]) && FirstOn(c, j, before[b]) :: i < j
    ensures SeenInOrder(hosts, c)
  {
    hide InsideOn;
    var n := |c.sessions| - 1;
    assert Distinct(hosts);
    forall i | Inside(c, i) ensures c.sessions[i].at.host in hosts {
      if i == n { assert hosts == before || hosts[|before|] == c.sessions[n].at.host; }
    }
    forall a | 0 <= a < |hosts| ensures SeenBy(c, |c.sessions|, hosts[a]) {
      if a < |before| {
        assert SeenBy(c, n, before[a]);
        var i :| i < n && FirstOn(c, i, before[a]);
        assert FirstOn(c, i, hosts[a]);
      } else {
        assert FirstOn(c, n, hosts[a]);
      }
    }
    forall a, b, i, j | 0 <= a < b < |hosts| && FirstOn(c, i, hosts[a]) && FirstOn(c, j, hosts[b]) ensures i < j {
      assert hosts[a] == before[a];
      if b == |before| {
        assert SeenBy(c, n, before[a]);
        var k :| k < n && FirstOn(c, k, before[a]);
        OneFirst(c, i, k, before[a]);
        OneFirst(c, j, n, hosts[b]);
      }
    }
  }

  lemma OneFirst(c: Place, i: int, j: int, host: string)
    requires FirstOn(c, i, host) && FirstOn(c, j, host)
    ensures i == j
  {
    if i < j { OnlyOneFirst(c, i, j, host); } else if j < i { OnlyOneFirst(c, j, i, host); }
  }

  /** A motion between machines, from one of them to a place on another. */
  lemma LandsOnMachine(c: Place, motion: Motion, i: nat, j: int)
    requires motion == NextHost || motion == PreviousHost
    requires i < |Machines(c)| && Machines(c)[i] != c.current.host && FirstOn(c, j, Machines(c)[i])
    requires Wrapped(motion == NextHost, RowIds.PositionOf(c.current.host, Machines(c)), |Machines(c)|) == Some(i)
    ensures Step(c, motion) == Some(c.sessions[j].at)
  {
    var host := Machines(c)[i];
    FirstIsFirst(c, j, host);
    hide Filter, HostsOf, Wrapped;
    assert c.sessions[j].at != c.current;
  }

  function InsideAndOn(c: Place, host: string): Entry -> bool {
    (entry: Entry) => (c.focus == None || entry.group == c.focus) && entry.at.host == host
  }

  lemma {:induction false} FilterTwice<T>(f: T -> bool, g: T -> bool, both: T -> bool, s: seq<T>)
    requires forall x :: both(x) <==> f(x) && g(x)
    ensures Filter(f, Filter(g, s)) == Filter(both, s)
  {
    if s != [] {
      FilterTwice(f, g, both, s[1..]);
      var first := if g(s[0]) then [s[0]] else [];
      FilterOfConcat(f, first, Filter(g, s[1..]));
      assert Filter(f, first) == if both(s[0]) then [s[0]] else [];
    }
  }

  lemma FirstIsFirst(c: Place, j: int, host: string)
    requires FirstOn(c, j, host)
    ensures var there := Filter(OnHost(host), Visible(c)); there != [] && there[0] == c.sessions[j]
  {
    hide Filter;
    var both := InsideAndOn(c, host);
    FilterTwice(OnHost(host), InFocus(c.focus), both, c.sessions);
    FilterAt(both, c.sessions, j);
    forall x | x in c.sessions[..j] ensures !both(x) {
      var k :| 0 <= k < j && c.sessions[k] == x;
      assert !InsideOn(c, k, host);
    }
    FilterAll(both, c.sessions[..j]);
  }

  /** The next machine's first session, round from the last machine to the first; and the machine before. */
  lemma HostKeysGoOn(c: Place, i: nat, j: int, k: int)
    requires i < |Machines(c)| && |Machines(c)| > 1 && Machines(c)[i] == c.current.host
    requires FirstOn(c, j, Machines(c)[if i + 1 < |Machines(c)| then i + 1 else 0])
    requires FirstOn(c, k, Machines(c)[if i > 0 then i - 1 else |Machines(c)| - 1])
    ensures Step(c, NextHost) == Some(c.sessions[j].at)
    ensures Step(c, PreviousHost) == Some(c.sessions[k].at)
  {
    var hosts := Machines(c);
    MachinesAreSeenInOrder(c);
    hide Machines, Step, Wrapped;
    assert RowIds.PositionOf(c.current.host, hosts) == Some(i);
    WrappedIsAround(i, |hosts|);
    LandsOnMachine(c, NextHost, if i + 1 < |hosts| then i + 1 else 0, j);
    LandsOnMachine(c, PreviousHost, if i > 0 then i - 1 else |hosts| - 1, k);
  }

  /** From a machine that is not one of them: to the first, or the last. */
  lemma HostKeysFromOutside(c: Place, j: int, k: int)
    requires Machines(c) != [] && c.current.host !in Machines(c)
    requires FirstOn(c, j, Machines(c)[0]) && FirstOn(c, k, Machines(c)[|Machines(c)| - 1])
    ensures Step(c, NextHost) == Some(c.sessions[j].at)
    ensures Step(c, PreviousHost) == Some(c.sessions[k].at)
  {
    hide Machines, Step;
    assert Machines(c)[0] in Machines(c) && Machines(c)[|Machines(c)| - 1] in Machines(c);
    assert RowIds.PositionOf(c.current.host, Machines(c)) == None;
    LandsOnMachine(c, NextHost, 0, j);
    LandsOnMachine(c, PreviousHost, |Machines(c)| - 1, k);
  }

  /** With nowhere else to go, nowhere. */
  lemma HostKeysAlone(c: Place)
    requires Machines(c) == [] || Machines(c) == [c.current.host]
    ensures Step(c, NextHost) == None && Step(c, PreviousHost) == None
  {
  }

  /** The host keys go round: as many machines on as steps, and round again at the start. */
  lemma {:induction false} HostKeysWalkTheRound(c: Place, i: nat, steps: nat)
    requires i < |Machines(c)| && Machines(c)[i] == c.current.host && steps <= |Machines(c)|
    ensures var there := Walk(c, NextHost, steps);
            Machines(there) == Machines(c) && there.current.host == Machines(c)[Around(i, steps, |Machines(c)|)]
    decreases steps
  {
    if steps > 0 {
      hide Step, Machines, Around;
      HostKeysWalkTheRound(c, i, steps - 1);
      var there := Walk(c, NextHost, steps - 1);
      assert Around(i, steps, |Machines(c)|) == Around(Around(i, steps - 1, |Machines(c)|), 1, |Machines(c)|) by {
        AroundOneMore(i, steps, |Machines(c)|);
      }
      NextMachine(there, Around(i, steps - 1, |Machines(c)|));
    }
  }

  lemma AroundOneMore(i: nat, steps: nat, n: nat)
    requires i < n && 0 < steps <= n
    ensures Around(i, steps, n) == Around(Around(i, steps - 1, n), 1, n)
  {
  }

  lemma NextMachine(c: Place, i: nat)
    requires i < |Machines(c)| && Machines(c)[i] == c.current.host
    ensures var there := match Step(c, NextHost) case Some(next) => MovedTo(c, next) case None => c;
            Machines(there) == Machines(c) && there.current.host == Machines(c)[Around(i, 1, |Machines(c)|)]
  {
    var hosts := Machines(c);
    if |hosts| == 1 {
      HostKeysAlone(c);
    } else {
      MachinesAreSeenInOrder(c);
      hide Step;
      var next, previous := if i + 1 < |hosts| then i + 1 else 0, if i > 0 then i - 1 else |hosts| - 1;
      assert SeenBy(c, |c.sessions|, hosts[next]) && SeenBy(c, |c.sessions|, hosts[previous]);
      var j :| FirstOn(c, j, hosts[next]);
      var k :| FirstOn(c, k, hosts[previous]);
      HostKeysGoOn(c, i, j, k);
    }
  }
}
