/** src/client/switch.rs: the sessions a switch key can reach, and the ones this run has been in. */
module Cycles {
  import opened Lists
  import opened Sessions
  import opened Wrappers
  import RowIds

  datatype Entry = Entry(at: Located, group: Option<string>)

  /** The fields of a cycle, as a value. */
  datatype Place = Place(sessions: seq<Entry>, current: Located, trail: seq<Located>, focus: Option<string>)

  datatype Motion = Last | Next | Previous | NextHost | PreviousHost

  function StartAt(current: Located): Place {
    Place([], current, [], None)
  }

  /** The sessions this run has been in, the one it is in now first. */
  function Recent(c: Place): seq<Located> {
    [c.current] + c.trail
  }

  function But(gone: Located): Located -> bool {
    (at: Located) => at != gone
  }

  function EntriesBut(gone: Located): Entry -> bool {
    (entry: Entry) => entry.at != gone
  }

  function MovedTo(c: Place, next: Located): Place {
    c.(current := next, trail := [c.current] + Filter(But(next), c.trail))
  }

  function Started(c: Place, at: Located): Place {
    MovedTo(c, at).(focus := None)
  }

  function Forgotten(c: Place, gone: Located): Place {
    c.(sessions := Filter(EntriesBut(gone), c.sessions), trail := Filter(But(gone), c.trail))
  }

  function Undone(c: Place): Place {
    if c.trail == [] then c else c.(current := c.trail[0], trail := c.trail[1..])
  }

  function FallenBack(c: Place): Place {
    if c.trail == [] then c else Forgotten(Undone(c), c.current)
  }

  function RenamedEntry(was: Located, name: string): Entry -> Entry {
    (entry: Entry) => if entry.at == was then entry.(at := Located(was.host, name)) else entry
  }

  function RenamedAt(c: Place, was: Located, name: string): Place {
    Place(Map(RenamedEntry(was, name), c.sessions),
          RowIds.RenamedTo(was, name)(c.current),
          Map(RowIds.RenamedTo(was, name), c.trail),
          c.focus)
  }

  /** A new listing; a narrowing to a group that is gone, or that this session has left, goes with it. */
  function Refreshed(c: Place, sessions: seq<Entry>): Place {
    var gone := !exists i :: 0 <= i < |sessions| && sessions[i].group == c.focus;
    var here := PositionAt(sessions, c.current);
    var left := here.Some? && sessions[here.value].group != c.focus;
    c.(sessions := sessions, focus := if c.focus.Some? && (gone || left) then None else c.focus)
  }

  function PositionAt(entries: seq<Entry>, at: Located): (r: Option<nat>)
    ensures r.Some? ==> r.value < |entries| && entries[r.value].at == at
    ensures r.Some? ==> forall k | 0 <= k < r.value :: entries[k].at != at
    ensures r.None? ==> forall k | 0 <= k < |entries| :: entries[k].at != at
  {
    if entries == [] then None
    else if entries[0].at == at then Some(0)
    else
      assert forall k | 1 <= k < |entries| :: entries[k] == entries[1..][k - 1];
      match PositionAt(entries[1..], at) case Some(i) => Some(i + 1) case None => None
  }

  // ----- Where a motion lands -----

  function InFocus(focus: Option<string>): Entry -> bool {
    (entry: Entry) => focus.None? || entry.group == focus
  }

  function OnHost(host: string): Entry -> bool {
    (entry: Entry) => entry.at.host == host
  }

  function Visible(c: Place): seq<Entry> {
    Filter(InFocus(c.focus), c.sessions)
  }

  predicate Holds(c: Place, at: Located) {
    PositionAt(Visible(c), at).Some?
  }

  /** What tab walks: this machine's sessions, or the whole of the group the cycle is narrowed to. */
  function Here(c: Place): seq<Entry> {
    if c.focus.Some? then Visible(c) else Filter(OnHost(c.current.host), Visible(c))
  }

  function Wrapped(forwards: bool, at: Option<nat>, length: nat): (r: Option<nat>)
    requires at.Some? ==> at.value < length
    ensures r.Some? <==> length > 0
    ensures r.Some? ==> r.value < length
  {
    if length == 0 then None
    else
      match at
      case Some(i) => Some(if forwards then (i + 1) % length else (i + length - 1) % length)
      case None => Some(if forwards then 0 else length - 1)
  }

  /** The machines in the order they first appear. */
  function HostsOf(entries: seq<Entry>): seq<string> {
    if entries == [] then []
    else
      var before := HostsOf(entries[..|entries| - 1]);
      var host := entries[|entries| - 1].at.host;
      if host in before then before else before + [host]
  }

  function Unless(next: Located, current: Located): Option<Located> {
    if next == current then None else Some(next)
  }

  function Step(c: Place, motion: Motion): (r: Option<Located>)
    ensures r != Some(c.current)
  {
    match motion
    case Last => if c.trail == [] then None else Unless(c.trail[0], c.current)
    case Next => StepHere(c, true)
    case Previous => StepHere(c, false)
    case NextHost => StepHost(c, true)
    case PreviousHost => StepHost(c, false)
  }

  function StepHere(c: Place, forwards: bool): (r: Option<Located>)
    ensures r != Some(c.current)
  {
    var here := Here(c);
    match Wrapped(forwards, PositionAt(here, c.current), |here|)
    case Some(i) => Unless(here[i].at, c.current)
    case None => None
  }

  function StepHost(c: Place, forwards: bool): (r: Option<Located>)
    ensures r != Some(c.current)
  {
    var hosts := HostsOf(Visible(c));
    match Wrapped(forwards, RowIds.PositionOf(c.current.host, hosts), |hosts|)
    case None => None
    case Some(i) =>
      var there := Filter(OnHost(hosts[i]), Visible(c));
      if hosts[i] == c.current.host || there == [] then None else Unless(there[0].at, c.current)
  }

  class Cycle {
    var sessions: seq<Entry>
    var current: Located
    var trail: seq<Located>
    var focus: Option<string>

    function Value(): Place
      reads this
    {
      Place(sessions, current, trail, focus)
    }

    constructor (current: Located)
      ensures Value() == StartAt(current)
    {
      this.sessions, this.current, this.trail, this.focus := [], current, [], None;
    }

    method MoveTo(next: Located)
      modifies this
      ensures Value() == MovedTo(old(Value()), next)
      ensures next !in trail <==> next != old(current)
    {
      hide Filter;
      FilterKeeps(But(next), trail);
      trail := Filter(But(next), trail);
      var was := current;
      current := next;
      trail := [was] + trail;
    }

    method Start(at: Located)
      modifies this
      ensures Value() == Started(old(Value()), at)
    {
      MoveTo(at);
      focus := None;
    }

    method Forget(gone: Located)
      modifies this
      ensures Value() == Forgotten(old(Value()), gone)
    {
      sessions := Filter(EntriesBut(gone), sessions);
      trail := Filter(But(gone), trail);
    }

    method Undo()
      modifies this
      ensures Value() == Undone(old(Value()))
    {
      if trail != [] {
        current := trail[0];
        trail := trail[1..];
      }
    }

    method FallBack() returns (back: Option<Located>)
      modifies this
      ensures Value() == FallenBack(old(Value()))
      ensures back == if old(trail) == [] then None else Some(current)
    {
      if trail == [] {
        return None;
      }
      var ended := current;
      current, trail := trail[0], trail[1..];
      Forget(ended);
      return Some(current);
    }

    method RenameAt(was: Located, name: string)
      modifies this
      ensures Value() == RenamedAt(old(Value()), was, name)
    {
      var here := current == was;
      for i := 0 to |sessions|
        invariant current == old(current) && trail == old(trail) && focus == old(focus)
        invariant |sessions| == |old(sessions)|
        invariant forall k | 0 <= k < |sessions| ::
                    sessions[k] == if k < i then RenamedEntry(was, name)(old(sessions)[k]) else old(sessions)[k]
      {
        if sessions[i].at == was {
          sessions := sessions[i := sessions[i].(at := Located(was.host, name))];
        }
      }
      assert sessions == Map(RenamedEntry(was, name), old(sessions));
      for i := 0 to |trail|
        invariant current == old(current) && focus == old(focus) && sessions == Map(RenamedEntry(was, name), old(sessions))
        invariant |trail| == |old(trail)|
        invariant forall k | 0 <= k < |trail| ::
                    trail[k] == if k < i then RowIds.RenamedTo(was, name)(old(trail)[k]) else old(trail)[k]
      {
        if trail[i] == was {
          trail := trail[i := Located(was.host, name)];
        }
      }
      if here {
        current := Located(current.host, name);
      }
    }

    method Refresh(sessions: seq<Entry>)
      modifies this
      ensures Value() == Refreshed(old(Value()), sessions)
    {
      this.sessions := sessions;
      if focus.None? {
        return;
      }
      var gone := !exists i :: 0 <= i < |sessions| && sessions[i].group == focus;
      var here := PositionAt(sessions, current);
      var left := here.Some? && sessions[here.value].group != focus;
      if gone || left {
        focus := None;
      }
    }
  }

  // ----- A session appears once -----

  lemma RecentParts(c: Place)
    ensures Distinct(Recent(c)) <==> Distinct(c.trail) && c.current !in c.trail
  {
    if Distinct(Recent(c)) {
      forall i, j | 0 <= i < j < |c.trail| ensures c.trail[i] != c.trail[j] {
        assert Recent(c)[i + 1] != Recent(c)[j + 1];
      }
      forall k | 0 <= k < |c.trail| ensures c.trail[k] != c.current {
        assert Recent(c)[0] != Recent(c)[k + 1];
      }
    }
  }

  lemma FilterOfTrail(keep: Located -> bool, trail: seq<Located>)
    requires Distinct(trail)
    ensures Distinct(Filter(keep, trail))
  {
    var same := (at: Located) => at;
    assert Map(same, trail) == trail && Map(same, Filter(keep, trail)) == Filter(keep, trail);
    FilterOfDistinct(same, keep, trail);
  }

  lemma RecentWithout(c: Place, gone: Located)
    requires Distinct(Recent(c))
    ensures Distinct(Filter(But(gone), c.trail)) && c.current !in Filter(But(gone), c.trail)
    ensures gone !in Filter(But(gone), c.trail)
  {
    RecentParts(c);
    FilterOfTrail(But(gone), c.trail);
    FilterKeeps(But(gone), c.trail);
  }

  /** Moving keeps every session on the trail once, exactly when it moves somewhere else. */
  lemma MovingStaysDistinct(c: Place, next: Located)
    requires Distinct(Recent(c))
    ensures Distinct(Recent(MovedTo(c, next))) <==> next != c.current
  {
    RecentWithout(c, next);
    RecentParts(MovedTo(c, next));
    RecentParts(MovedTo(c, next).(current := c.current, trail := Filter(But(next), c.trail)));
    var trail := MovedTo(c, next).trail;
    assert trail[0] == c.current;
    forall i, j | 0 <= i < j < |trail| ensures trail[i] != trail[j] {
      assert trail[j] == Filter(But(next), c.trail)[j - 1] && trail[j] in Filter(But(next), c.trail);
    }
    assert forall at :: at in trail <==> at == c.current || at in Filter(But(next), c.trail);
  }

  lemma LosingStaysDistinct(c: Place, gone: Located)
    requires Distinct(Recent(c))
    ensures Distinct(Recent(Forgotten(c, gone))) && Distinct(Recent(Undone(c))) && Distinct(Recent(FallenBack(c)))
  {
    RecentWithout(c, gone);
    RecentParts(Forgotten(c, gone));
    assert c.trail != [] ==> Recent(Undone(c)) == Recent(c)[1..];
    assert Distinct(Recent(Undone(c)));
    RecentWithout(Undone(c), c.current);
    RecentParts(Forgotten(Undone(c), c.current));
  }

  /** A rename keeps it too, exactly when it does not give a session a name already on the trail. */
  lemma RenamingStaysDistinct(c: Place, was: Located, name: string)
    requires Distinct(Recent(c)) && was in Recent(c)
    ensures Distinct(Recent(RenamedAt(c, was, name))) <==> name == was.session || Located(was.host, name) !in Recent(c)
  {
    var recent, now := Recent(c), Located(was.host, name);
    var renamed := Recent(RenamedAt(c, was, name));
    assert |renamed| == |recent| && forall k | 0 <= k < |recent| :: renamed[k] == if recent[k] == was then now else recent[k];
    var i :| 0 <= i < |recent| && recent[i] == was;
    if now != was && now in recent {
      var k :| 0 <= k < |recent| && recent[k] == now;
      assert renamed[i] == renamed[k];
    }
    if now == was { assert renamed == recent; }
  }

  // ----- There and back -----

  /** A hop that could not be made, taken back: where it was, the session hopped to gone from the trail and the walk. */
  lemma UndoTakesAHopBack(c: Place, next: Located)
    requires next != c.current
    ensures Undone(Forgotten(MovedTo(c, next), next)) == Forgotten(c, next)
  {
    var kept := Filter(But(next), c.trail);
    FilterKeeps(But(next), c.trail);
    FilterAll(But(next), kept);
    assert ([c.current] + kept)[1..] == kept;
  }

  /**
    Falling back from a session hopped to is being where the hop was made from, with
    nothing left of the one that ended.
   */
  lemma FallingBackIsUndoing(c: Place, next: Located)
    requires next != c.current
    ensures FallenBack(MovedTo(c, next)) == Forgotten(c, next)
  {
    UndoTakesAHopBack(c, next);
    var kept := Filter(But(next), c.trail);
    FilterKeeps(But(next), c.trail);
    FilterAll(But(next), kept);
    assert ([c.current] + kept)[1..] == kept;
  }

  // ----- Walking -----

  function Walk(c: Place, motion: Motion, steps: nat): Place {
    if steps == 0 then c
    else
      var there := Walk(c, motion, steps - 1);
      match Step(there, motion) case Some(next) => MovedTo(there, next) case None => there
  }

  predicate DistinctEntries(entries: seq<Entry>) {
    forall i, j | 0 <= i < j < |entries| :: entries[i].at != entries[j].at
  }

  /** The place some steps on, going round. */
  function Around(i: nat, steps: nat, n: nat): (k: nat)
    requires i < n && steps <= n
    ensures k < n
  {
    if i + steps < n then i + steps else i + steps - n
  }

  lemma {:induction false} OverByOne(a: nat, n: nat)
    requires n <= a < 2 * n
    ensures a % n == a - n
  {
    var q := a / n;
    assert a == q * n + a % n;
    assert q >= 2 ==> q * n >= 2 * n;
  }

  lemma WrappedIsAround(i: nat, n: nat)
    requires i < n
    ensures Wrapped(true, Some(i), n) == Some(Around(i, 1, n))
    ensures Wrapped(false, Some(i), n) == Some(Around(i, n - 1, n))
  {
    if i + 1 == n { OverByOne(n, n); }
    if i > 0 { OverByOne(i + n - 1, n); }
  }

  /** Where tab and shift-tab land from a place on the walk. */
  lemma StepsAround(c: Place, i: nat)
    requires i < |Here(c)| && Here(c)[i].at == c.current && DistinctEntries(Here(c))
    ensures Step(c, Next) == Unless(Here(c)[Around(i, 1, |Here(c)|)].at, c.current)
    ensures Step(c, Previous) == Unless(Here(c)[Around(i, |Here(c)| - 1, |Here(c)|)].at, c.current)
  {
    hide Here, Wrapped;
    assert PositionAt(Here(c), c.current) == Some(i);
    WrappedIsAround(i, |Here(c)|);
  }

  /** Moving along the walk changes nothing about it. */
  lemma MovingKeepsTheWalk(c: Place, k: nat)
    requires k < |Here(c)| && (c.focus.Some? || Here(c)[k].at.host == c.current.host)
    ensures Here(MovedTo(c, Here(c)[k].at)) == Here(c)
  {
  }

  lemma WalkIsHere(c: Place, k: nat)
    requires k < |Here(c)|
    ensures c.focus.Some? || Here(c)[k].at.host == c.current.host
  {
    FilterKeeps(OnHost(c.current.host), Visible(c));
    assert Here(c)[k] in Here(c);
  }

  lemma NextIsOneOn(c: Place, i: nat)
    requires i < |Here(c)| && Here(c)[i].at == c.current && DistinctEntries(Here(c))
    ensures var there := match Step(c, Next) case Some(next) => MovedTo(c, next) case None => c;
            Here(there) == Here(c) && there.current == Here(c)[Around(i, 1, |Here(c)|)].at
  {
    hide Here, Step;
    StepsAround(c, i);
    WalkIsHere(c, Around(i, 1, |Here(c)|));
    MovingKeepsTheWalk(c, Around(i, 1, |Here(c)|));
  }

  /**
    Tab goes round: from any session on the walk, as many steps on is as many places
    on, and a whole round is back at the start.
   */
  lemma {:induction false} NextWalksTheRound(c: Place, i: nat, steps: nat)
    requires i < |Here(c)| && Here(c)[i].at == c.current && DistinctEntries(Here(c)) && steps <= |Here(c)|
    ensures var there := Walk(c, Next, steps);
            Here(there) == Here(c) && there.current == Here(c)[Around(i, steps, |Here(c)|)].at
    decreases steps
  {
    hide Here, Step, MovedTo;
    if steps > 0 {
      NextWalksTheRound(c, i, steps - 1);
      NextIsOneOn(Walk(c, Next, steps - 1), Around(i, steps - 1, |Here(c)|));
    }
  }

  /** And shift-tab is tab's way back. */
  lemma PreviousUndoesNext(c: Place, i: nat)
    requires i < |Here(c)| && Here(c)[i].at == c.current && DistinctEntries(Here(c)) && |Here(c)| > 1
    ensures Step(c, Next).Some? && Step(MovedTo(c, Step(c, Next).value), Previous) == Some(c.current)
  {
    var k := Around(i, 1, |Here(c)|);
    NextIsOneOn(c, i);
    StepsAround(c, i);
    hide Here, Step;
    assert Here(c)[k].at != c.current;
    StepsAround(MovedTo(c, Here(c)[k].at), k);
  }

  /**
    A switch key stays inside the narrowing: tab on this machine unless a group is in
    focus, and the host keys off it always.
   */
  lemma StepsStayInFocus(c: Place, motion: Motion)
    requires motion != Last && Step(c, motion).Some?
    ensures Holds(c, Step(c, motion).value)
    ensures motion == NextHost || motion == PreviousHost ==> Step(c, motion).value.host != c.current.host
    ensures c.focus.None? && (motion == Next || motion == Previous) ==> Step(c, motion).value.host == c.current.host
  {
    var next := Step(c, motion).value;
    if motion == Next || motion == Previous {
      var here := Here(c);
      var i := Wrapped(motion == Next, PositionAt(here, c.current), |here|).value;
      assert here[i] in here && here[i].at == next;
      FilterKeeps(OnHost(c.current.host), Visible(c));
      InVisible(c, here[i]);
    } else {
      var hosts := HostsOf(Visible(c));
      var i := Wrapped(motion == NextHost, RowIds.PositionOf(c.current.host, hosts), |hosts|).value;
      var there := Filter(OnHost(hosts[i]), Visible(c));
      FilterKeeps(OnHost(hosts[i]), Visible(c));
      assert there[0] in there;
      InVisible(c, there[0]);
    }
  }

  lemma InVisible(c: Place, entry: Entry)
    requires entry in Visible(c)
    ensures Holds(c, entry.at)
  {
    var k :| 0 <= k < |Visible(c)| && Visible(c)[k] == entry;
  }

  /**
    A narrowing is kept through a listing exactly when there is still something in it
    to walk and this session, if it is listed at all, is in it; and otherwise dropped.
   */
  lemma NarrowingAgrees(c: Place, sessions: seq<Entry>)
    requires c.focus.Some? && DistinctEntries(sessions)
    ensures var narrowed := c.(sessions := sessions);
            var agrees := Visible(narrowed) != [] && (PositionAt(sessions, c.current).Some? ==> Holds(narrowed, c.current));
            Refreshed(c, sessions) == if agrees then narrowed else narrowed.(focus := None)
  {
    hide Filter;
    var narrowed := c.(sessions := sessions);
    FilterKeeps(InFocus(c.focus), sessions);
    if i :| 0 <= i < |sessions| && sessions[i].group == c.focus {
      assert sessions[i] in Visible(narrowed);
    }
    if Visible(narrowed) != [] {
      assert Visible(narrowed)[0] in Visible(narrowed);
      assert Visible(narrowed)[0] in sessions;
    }
    var here := PositionAt(sessions, c.current);
    if here.Some? {
      if sessions[here.value].group == c.focus { InVisible(narrowed, sessions[here.value]); }
      if Holds(narrowed, c.current) {
        var entry := Visible(narrowed)[PositionAt(Visible(narrowed), c.current).value];
        assert entry in Visible(narrowed) && entry in sessions;
        var k :| 0 <= k < |sessions| && sessions[k] == entry;
        assert k == here.value;
      }
    }
  }
}
