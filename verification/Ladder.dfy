/**
  src/client/mod.rs: finding a way onto a machine that may have no `mm` on it.

  A stream over ssh starts on the first of the program names, moves down them
  while the far end's shell says it found no such program (exit 127), and at the
  bottom may ask to install and start again at the top. What ssh and the person
  answer is the world's to choose, differently every time.
 */
module Ladder {
  import opened Wrappers

  /** `mm` and `~/.local/bin/mm`. */
  const PROGRAMS: nat := 2
  const NOT_FOUND: int := 127

  datatype Platform = Unix | Windows

  /** How to get back to a machine, while there is still another way to try. */
  datatype Ssh = Ssh(platform: Platform, program: nat, installed: bool, canAsk: bool)

  /** A way in that did not work, and what would come of trying another. */
  datatype World = World(exit: Option<int>, agrees: bool, installs: bool, launches: bool)

  /** What became of one request written to the open stream. */
  datatype Attempt =
    | Answered
    | Nothing(world: World)  // a broken pipe, or an end of stream with no frame on it

  datatype Reopened =
    | Again   // a new stream worth sending the request on
    | No      // nothing was tried: the caller reports its own failure
    | Failed  // something was, and this is the failure

  /** How often the stream has launched an agent, asked, run the installer and sent a request. */
  datatype Tally = Tally(launches: nat, asks: nat, installs: nat, sends: nat)

  datatype Ladder = Ladder(ssh: Option<Ssh>, tally: Tally)

  // ----- One step -----

  function Launch(l: Ladder, ssh: Ssh, works: bool): (Reopened, Ladder) {
    var tally := l.tally.(launches := l.tally.launches + 1);
    if works then (Again, Ladder(Some(ssh), tally)) else (Failed, Ladder(None, tally))
  }

  function Step(l: Ladder, w: World): (Reopened, Ladder) {
    match l.ssh
    case None => (No, l)
    case Some(ssh) =>
      if w.exit != Some(NOT_FOUND) then (No, l)
      else if ssh.platform.Unix? && ssh.program + 1 < PROGRAMS then
        Launch(l, ssh.(program := ssh.program + 1), w.launches)
      else if ssh.installed || !ssh.canAsk then (Failed, Ladder(None, l.tally))
      else
        var asked := l.(tally := l.tally.(asks := l.tally.asks + 1));
        if !w.agrees then (Failed, Ladder(None, asked.tally))
        else
          var ran := asked.(tally := asked.tally.(installs := asked.tally.installs + 1));
          if !w.installs then (Failed, Ladder(None, ran.tally))
          else Launch(ran, ssh.(installed := true, program := 0), w.launches)
  }

  /** Rungs left below: what every launch uses up one of. */
  function Rungs(ssh: Option<Ssh>): nat {
    match ssh
    case None => 0
    case Some(ssh) =>
      var names := if ssh.platform.Unix? then PROGRAMS else 1;
      (if ssh.installed || !ssh.canAsk then 0 else names) + (if ssh.program + 1 < names then names - 1 - ssh.program else 0)
  }

  /** `program` names one of the programs there are, and only Unix has more than one. */
  predicate Valid(l: Ladder) {
    l.ssh.Some? ==> l.ssh.value.program < (if l.ssh.value.platform.Unix? then PROGRAMS else 1)
  }

  /** A step that leaves a stream to resend on was a 127, cost a rung, and launched once. */
  lemma AgainCostsARung(l: Ladder, w: World)
    requires Valid(l)
    ensures var (r, next) := Step(l, w);
            && Valid(next)
            && next.tally.launches + Rungs(next.ssh) <= l.tally.launches + Rungs(l.ssh)
            && (r == Again ==>
                  && w.exit == Some(NOT_FOUND)
                  && next.tally.launches == l.tally.launches + 1
                  && Rungs(next.ssh) == Rungs(l.ssh) - 1)
            && (r == No ==> next == l)
            && (r == Failed ==> next.ssh == None)
  {
  }

  /** The bottom: no further name to try the program by. */
  predicate AtTheBottom(ssh: Ssh) {
    ssh.platform.Windows? || ssh.program == PROGRAMS - 1
  }

  /** Anything but a 127 is the caller's to report: the stream is kept, and nothing was tried. */
  lemma OnlyNotFoundIsTried(l: Ladder, w: World)
    ensures l.ssh == None || w.exit != Some(NOT_FOUND) <==> Step(l, w).0 == No
    ensures Step(l, w).0 == No ==> Step(l, w).1 == l
  {
  }

  /** Further up, the next name is tried, and nobody is asked anything. */
  lemma NextNameIsTried(l: Ladder, w: World)
    requires Valid(l) && l.ssh.Some? && w.exit == Some(NOT_FOUND) && !AtTheBottom(l.ssh.value)
    ensures var (r, next) := Step(l, w);
            && (r == Again <==> w.launches) && (r == Failed <==> !w.launches)
            && next.tally == l.tally.(launches := l.tally.launches + 1)
            && next.ssh == if w.launches then Some(l.ssh.value.(program := l.ssh.value.program + 1)) else None
  {
  }

  /**
    At the bottom a question is put exactly when there is somebody to put it to and
    nothing was installed before; the installer runs exactly when the answer is yes;
    an agent is launched exactly when it worked; and the way in is from the top again.
   */
  lemma NothingWithoutConsent(l: Ladder, w: World)
    requires Valid(l) && l.ssh.Some? && w.exit == Some(NOT_FOUND) && AtTheBottom(l.ssh.value)
    ensures var (r, next), may := Step(l, w), l.ssh.value.canAsk && !l.ssh.value.installed;
            && next.tally.asks - l.tally.asks == (if may then 1 else 0)
            && next.tally.installs - l.tally.installs == (if may && w.agrees then 1 else 0)
            && next.tally.launches - l.tally.launches == (if may && w.agrees && w.installs then 1 else 0)
            && next.tally.sends == l.tally.sends
            && (r == Again <==> may && w.agrees && w.installs && w.launches) && (r != Again ==> r == Failed)
            && next.ssh == if r == Again then Some(Ssh(l.ssh.value.platform, 0, true, l.ssh.value.canAsk)) else None
  {
  }

  // ----- One request -----

  /** A request sent, and sent again for as long as another way in turns up. */
  function Requested(l: Ladder, world: nat -> Attempt, turn: nat): (bool, Ladder)
    requires Valid(l)
    decreases Rungs(l.ssh)
  {
    var sent := l.(tally := l.tally.(sends := l.tally.sends + 1));
    match world(turn)
    case Answered => (true, sent)
    case Nothing(w) =>
      AgainCostsARung(sent, w);
      var (r, next) := Step(sent, w);
      if r == Again then Requested(next, world, turn + 1) else (false, next)
  }

  class Stream {
    var ssh: Option<Ssh>
    ghost var tally: Tally

    ghost function View(): Ladder
      reads this
    {
      Ladder(ssh, tally)
    }

    /** To the node on this machine: there is no other way in to look for. */
    constructor Local()
      ensures View() == Ladder(None, Tally(0, 0, 0, 0))
    {
      ssh := None;
      tally := Tally(0, 0, 0, 0);
    }

    /** Connect, installing first on a machine the probe found to have nothing. */
    constructor CarriedBy(platform: Platform, missing: bool, canAsk: bool, w: World)
      ensures View() == Carried(platform, missing, canAsk, w)
    {
      ssh := None;
      tally := Tally(0, 0, 0, 0);
      new;
      if missing {
        if !canAsk {
          return;
        }
        tally := tally.(asks := tally.asks + 1);
        if !w.agrees {
          return;
        }
        tally := tally.(installs := tally.installs + 1);
        if !w.installs {
          return;
        }
      }
      tally := tally.(launches := tally.launches + 1);
      if w.launches {
        ssh := Some(Ssh(platform, 0, missing, canAsk));
      }
    }

    /** Find another way onto a machine that turned out to have no `mm`. */
    method Reopen(w: World) returns (r: Reopened)
      requires Valid(View())
      modifies this
      ensures (r, View()) == Step(old(View()), w)
    {
      if ssh.None? {
        return No;
      }
      var way := ssh.value;
      ssh := None;
      if w.exit != Some(NOT_FOUND) {
        ssh := Some(way);
        return No;
      }
      if way.platform.Unix? && way.program + 1 < PROGRAMS {
        way := way.(program := way.program + 1);
      } else {
        var willing := !way.installed && way.canAsk;
        if willing {
          tally := tally.(asks := tally.asks + 1);
          willing := w.agrees;
        }
        if !willing {
          return Failed;
        }
        tally := tally.(installs := tally.installs + 1);
        if !w.installs {
          return Failed;
        }
        way := way.(installed := true, program := 0);
      }
      tally := tally.(launches := tally.launches + 1);
      if !w.launches {
        return Failed;
      }
      ssh := Some(way);
      return Again;
    }

    /** Send a request and read its answer; the world's turns are numbered from `first`. */
    method Request(world: nat -> Attempt, first: nat) returns (answered: bool)
      requires Valid(View())
      modifies this
      ensures Valid(View())
      ensures (answered, View()) == Requested(old(View()), world, first)
    {
      var turn := first;
      while true
        invariant Valid(View())
        invariant Requested(old(View()), world, first) == Requested(View(), world, turn)
        decreases Rungs(ssh)
      {
        ghost var before := View();
        tally := tally.(sends := tally.sends + 1);
        match world(turn) {
          case Answered => return true;
          case Nothing(w) =>
            AgainCostsARung(View(), w);
            var r := Reopen(w);
            if r != Again {
              return false;
            }
        }
        turn := turn + 1;
      }
    }
  }

  // ----- The life of a stream -----

  /** A stream just connected: at most one question and one install already behind it. */
  function Carried(platform: Platform, missing: bool, canAsk: bool, w: World): Ladder {
    var asks := if missing && canAsk then 1 else 0;
    var installs := if missing && canAsk && w.agrees then 1 else 0;
    var open := !missing || (canAsk && w.agrees && w.installs);
    var ssh := if open && w.launches then Some(Ssh(platform, 0, missing, canAsk)) else None;
    Ladder(ssh, Tally(if open then 1 else 0, asks, installs, 0))
  }

  /** Any number of requests made of one stream, each met by a world of its own. */
  function Lived(l: Ladder, worlds: seq<nat -> Attempt>): Ladder
    requires Valid(l)
    ensures Valid(Lived(l, worlds))
    decreases |worlds|
  {
    if worlds == [] then l
    else
      RequestKeeps(l, worlds[0], 0);
      Lived(Requested(l, worlds[0], 0).1, worlds[1..])
  }

  /** A question left to ask: only while nothing has been installed and nobody has been asked. */
  function Questions(ssh: Option<Ssh>): nat {
    if ssh.Some? && !ssh.value.installed && ssh.value.canAsk then 1 else 0
  }

  lemma {:induction false} RequestKeeps(l: Ladder, world: nat -> Attempt, turn: nat)
    requires Valid(l)
    ensures var next := Requested(l, world, turn).1;
            && Valid(next)
            && next.tally.launches + Rungs(next.ssh) <= l.tally.launches + Rungs(l.ssh)
            && next.tally.asks + Questions(next.ssh) <= l.tally.asks + Questions(l.ssh)
            && next.tally.installs + Questions(next.ssh) <= l.tally.installs + Questions(l.ssh)
    decreases Rungs(l.ssh)
  {
    var sent := l.(tally := l.tally.(sends := l.tally.sends + 1));
    if world(turn).Nothing? {
      var w := world(turn).world;
      AgainCostsARung(sent, w);
      var (r, next) := Step(sent, w);
      if r == Again { RequestKeeps(next, world, turn + 1); }
    }
  }

  lemma {:induction false} LifeKeeps(l: Ladder, worlds: seq<nat -> Attempt>)
    requires Valid(l)
    ensures var next := Lived(l, worlds);
            && next.tally.launches + Rungs(next.ssh) <= l.tally.launches + Rungs(l.ssh)
            && next.tally.asks + Questions(next.ssh) <= l.tally.asks + Questions(l.ssh)
            && next.tally.installs + Questions(next.ssh) <= l.tally.installs + Questions(l.ssh)
    decreases |worlds|
  {
    if worlds != [] {
      RequestKeeps(l, worlds[0], 0);
      LifeKeeps(Requested(l, worlds[0], 0).1, worlds[1..]);
    }
  }

  /** Over its whole life a stream launches at most four agents, or two on Windows, and asks and installs once. */
  lemma LadderIsBounded(platform: Platform, missing: bool, canAsk: bool, w: World, worlds: seq<nat -> Attempt>)
    ensures var tally := Lived(Carried(platform, missing, canAsk, w), worlds).tally;
            && tally.launches <= (if platform.Unix? then 2 * PROGRAMS else 2)
            && tally.asks <= 1 && tally.installs <= tally.asks
  {
    LifeKeeps(Carried(platform, missing, canAsk, w), worlds);
    LifeInstallsOnlyWhatItAsked(Carried(platform, missing, canAsk, w), worlds);
  }

  lemma {:induction false} LifeInstallsOnlyWhatItAsked(l: Ladder, worlds: seq<nat -> Attempt>)
    requires Valid(l) && l.tally.installs <= l.tally.asks
    ensures Lived(l, worlds).tally.installs <= Lived(l, worlds).tally.asks
    decreases |worlds|
  {
    if worlds != [] {
      RequestInstallsOnlyWhatItAsked(l, worlds[0], 0);
      RequestKeeps(l, worlds[0], 0);
      LifeInstallsOnlyWhatItAsked(Requested(l, worlds[0], 0).1, worlds[1..]);
    }
  }

  lemma {:induction false} RequestInstallsOnlyWhatItAsked(l: Ladder, world: nat -> Attempt, turn: nat)
    requires Valid(l) && l.tally.installs <= l.tally.asks
    ensures Requested(l, world, turn).1.tally.installs <= Requested(l, world, turn).1.tally.asks
    decreases Rungs(l.ssh)
  {
    var sent := l.(tally := l.tally.(sends := l.tally.sends + 1));
    if world(turn).Nothing? {
      AgainCostsARung(sent, world(turn).world);
      var (r, next) := Step(sent, world(turn).world);
      if r == Again { RequestInstallsOnlyWhatItAsked(next, world, turn + 1); }
    }
  }

  // ----- Nothing is installed on anybody who says no -----

  ghost predicate Refuses(world: nat -> Attempt) {
    forall i :: world(i).Nothing? ==> !world(i).world.agrees
  }

  lemma {:induction false} RefusedRequestInstallsNothing(l: Ladder, world: nat -> Attempt, turn: nat)
    requires Valid(l) && Refuses(world)
    ensures var (answered, next) := Requested(l, world, turn);
            && next.tally.installs == l.tally.installs
            && (next.ssh.Some? ==> l.ssh.Some? && next.ssh.value.installed == l.ssh.value.installed)
    decreases Rungs(l.ssh)
  {
    var sent := l.(tally := l.tally.(sends := l.tally.sends + 1));
    if world(turn).Nothing? {
      AgainCostsARung(sent, world(turn).world);
      var (r, next) := Step(sent, world(turn).world);
      if r == Again { RefusedRequestInstallsNothing(next, world, turn + 1); }
    }
  }

  /** As long as every answer is no, the installer does not run, whatever is asked of the stream. */
  lemma {:induction false} RefusedLifeInstallsNothing(l: Ladder, worlds: seq<nat -> Attempt>)
    requires Valid(l) && forall k | 0 <= k < |worlds| :: Refuses(worlds[k])
    ensures Lived(l, worlds).tally.installs == l.tally.installs
    decreases |worlds|
  {
    if worlds != [] {
      RequestKeeps(l, worlds[0], 0);
      RefusedRequestInstallsNothing(l, worlds[0], 0);
      RefusedLifeInstallsNothing(Requested(l, worlds[0], 0).1, worlds[1..]);
    }
  }

  /** From connecting on: with every answer no, nothing is ever installed, and one left out at the door is not let in. */
  lemma RefusedIsNeverInstalled(platform: Platform, missing: bool, canAsk: bool, w: World, worlds: seq<nat -> Attempt>)
    requires !w.agrees && forall k | 0 <= k < |worlds| :: Refuses(worlds[k])
    ensures Lived(Carried(platform, missing, canAsk, w), worlds).tally.installs == 0
  {
    RefusedLifeInstallsNothing(Carried(platform, missing, canAsk, w), worlds);
  }

  /**
    Connecting asks exactly when the machine has nothing and there is somebody to ask,
    installs exactly on a yes, launches exactly on a machine that has something by
    then, and leaves a way to look further exactly where that launch worked.
   */
  lemma ConnectingTakesConsent(platform: Platform, missing: bool, canAsk: bool, w: World)
    ensures var l := Carried(platform, missing, canAsk, w);
            && (l.tally.asks == 1 <==> missing && canAsk) && l.tally.asks <= 1
            && (l.tally.installs == 1 <==> l.tally.asks == 1 && w.agrees) && l.tally.installs <= 1
            && (l.tally.launches == 1 <==> !missing || (l.tally.installs == 1 && w.installs)) && l.tally.launches <= 1
            && l.tally.sends == 0
            && (l.ssh.Some? <==> l.tally.launches == 1 && w.launches)
            && (l.ssh.Some? ==> l.ssh.value == Ssh(platform, 0, l.tally.installs == 1, canAsk))
  {
  }

  /** A request that meets anything but a 127 fails with the stream as it was, the one send counted. */
  lemma OtherFailuresKeepTheStream(l: Ladder, world: nat -> Attempt, turn: nat)
    requires Valid(l) && world(turn).Nothing? && world(turn).world.exit != Some(NOT_FOUND)
    ensures Requested(l, world, turn) == (false, l.(tally := l.tally.(sends := l.tally.sends + 1)))
  {
  }

  /** A request goes out once more than it met a 127, and every send but the last met one. */
  lemma {:induction false} ResentOnlyAfterNotFound(l: Ladder, world: nat -> Attempt, turn: nat)
    requires Valid(l)
    ensures var sends := Requested(l, world, turn).1.tally.sends - l.tally.sends;
            && 1 <= sends <= Rungs(l.ssh) + 1
            && (forall i | turn <= i < turn + sends - 1 ::
                  world(i).Nothing? && world(i).world.exit == Some(NOT_FOUND))
            && (Requested(l, world, turn).0 <==> world(turn + sends - 1).Answered?)
    decreases Rungs(l.ssh)
  {
    var sent := l.(tally := l.tally.(sends := l.tally.sends + 1));
    if world(turn).Nothing? {
      var w := world(turn).world;
      AgainCostsARung(sent, w);
      var (r, next) := Step(sent, w);
      if r == Again { ResentOnlyAfterNotFound(next, world, turn + 1); }
    }
  }

  /** The bounds are met: a machine with nothing on it until the last way in uses every rung there is. */
  lemma BoundIsReached(platform: Platform)
    ensures var world := (turn: nat) =>
                if turn < (if platform.Unix? then 3 else 1) then Nothing(World(Some(NOT_FOUND), true, true, true)) else Answered;
            var open := Carried(platform, false, true, World(None, true, true, true));
            Lived(open, [world]).tally == (if platform.Unix? then Tally(4, 1, 1, 4) else Tally(2, 1, 1, 2))
  {
    var w := World(Some(NOT_FOUND), true, true, true);
    var world := (turn: nat) => if turn < (if platform.Unix? then 3 else 1) then Nothing(w) else Answered;
    var l0 := Carried(platform, false, true, World(None, true, true, true));
    var l1 := Step(l0.(tally := Tally(1, 0, 0, 1)), w).1;
    assert Requested(l0, world, 0) == Requested(l1, world, 1);
    if platform.Unix? {
      var l2 := Step(l1.(tally := Tally(2, 0, 0, 2)), w).1;
      assert Requested(l1, world, 1) == Requested(l2, world, 2);
      var l3 := Step(l2.(tally := Tally(3, 1, 1, 3)), w).1;
      assert Requested(l2, world, 2) == Requested(l3, world, 3);
    }
    assert Lived(l0, [world]) == Lived(Requested(l0, world, 0).1, [world][1..]);
  }
}
