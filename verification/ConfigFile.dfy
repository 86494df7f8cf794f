/**
  src/config.rs and src/client/groups.rs: one TOML file that many processes
  change, each by reading it, changing what it read and renaming a whole new file
  into place, under a lock kept on another file.

  Calls interleave step by step; any step that can fail may, and a process can
  die anywhere. Encoding and parsing are taken to be inverse, so a file's bytes
  are the encoding of a value (`Whole`) or they are not (`Torn`): cut short, or
  edited by hand into something that does not parse.
 */
module ConfigFile {
  import opened Wrappers

  datatype Content<V> = Whole(value: V) | Torn

  /** The name of a temporary file: the writer's process id, and its own count. */
  datatype Temp = Temp(pid: nat, n: nat)

  /** One call: who makes it, whether it takes the lock, and what it does to the value. */
  datatype Call<!V> = Call(process: nat, locks: bool, change: V -> Option<V>)

  /** What is fixed for a whole run. Two processes may share a pid, one after the other. */
  datatype Setup<!V> = Setup(calls: nat -> Call<V>, pid: nat -> nat, initial: Option<Content<V>>, default: V)

  datatype Phase<V> =
    | Opened                             // the lock file is open
    | Inside                             // and locked
    | Loaded(value: V)
    | Changed(value: V)
    | Naming(value: V, temp: Temp)       // a name taken from the counter
    | Writing(value: V, temp: Temp)      // the file of that name made anew
    | Written(value: V, temp: Temp)      // and all of it on disk
    | Failing(temp: Temp)                // to be removed before giving up
    | Installed
    | Done(ok: bool)
    | Dead

  datatype State<V> = State(
    file: Option<Content<V>>,
    temps: map<Temp, Content<V>>,
    holder: Option<nat>,
    running: set<nat>,
    next: map<nat, nat>,
    phases: map<nat, Phase<V>>,
    commits: seq<nat>)

  function Initially<V>(setup: Setup<V>): State<V> {
    State(setup.initial, map[], None, {}, map[], map[], [])
  }

  datatype Act =
    | Spawn(process: nat)
    | Crash(process: nat)
    | Turn(call: nat, works: bool)

  predicate Enabled<V>(setup: Setup<V>, s: State<V>, act: Act) {
    match act
    case Spawn(p) => p !in s.next && forall q | q in s.running :: setup.pid(q) != setup.pid(p)
    case Crash(p) => p in s.running
    case Turn(c, works) =>
      && setup.calls(c).process in s.running
      && setup.calls(c).process in s.next
      && (c in s.phases ==> !s.phases[c].Done? && !s.phases[c].Dead?)
      // The lock is waited for.
      && (c in s.phases && s.phases[c].Opened? && setup.calls(c).locks && works ==> s.holder == None)
  }

  /** The call returns, and with it goes its hold on the lock. */
  function Return<V>(s: State<V>, c: nat, ok: bool): (State<V>, Phase<V>) {
    (s.(holder := if s.holder == Some(c) then None else s.holder), Done(ok))
  }

  /** What one turn does to everything but the calls' phases, and the phase it leaves its own call in. */
  function Move<V>(setup: Setup<V>, s: State<V>, c: nat, works: bool): (State<V>, Phase<V>)
    requires Enabled(setup, s, Turn(c, works))
  {
    var call := setup.calls(c);
    if c !in s.phases then (if works then (s, Opened) else Return(s, c, false))
    else
      match s.phases[c]
      case Opened =>
        if !call.locks then (s, Loaded(setup.default))
        else if works then (s.(holder := Some(c)), Inside)
        else Return(s, c, false)
      case Inside =>
        (match s.file
         case None => (s, Loaded(setup.default))
         case Some(Whole(v)) => if works then (s, Loaded(v)) else Return(s, c, false)
         case Some(Torn) => Return(s, c, false))
      case Loaded(v) =>
        (match call.change(v)
         case Some(w) => (s, Changed(w))
         case None => Return(s, c, false))
      case Changed(v) =>
        // Encoding may fail; else a number is taken, whether or not its name turns out to be free.
        if !works then Return(s, c, false)
        else
          var n := s.next[call.process];
          (s.(next := s.next[call.process := n + 1]), Naming(v, Temp(setup.pid(call.process), n)))
      case Naming(v, temp) =>
        if temp in s.temps then (s, Changed(v))
        else if works then (s.(temps := s.temps[temp := Torn]), Writing(v, temp))
        else Return(s, c, false)
      case Writing(v, temp) =>
        if works then (s.(temps := s.temps[temp := Whole(v)]), Written(v, temp))
        else (s, Failing(temp))
      case Written(v, temp) =>
        if works && temp in s.temps then
          (s.(file := Some(s.temps[temp]), temps := s.temps - {temp}, commits := s.commits + [c]), Installed)
        else (s, Failing(temp))
      case Failing(temp) => Return(s.(temps := if works then s.temps - {temp} else s.temps), c, false)
      case Installed => Return(s, c, true)
      case Done(ok) => (s, Done(ok))
      case Dead => (s, Dead)
  }

  function Took<V>(setup: Setup<V>, s: State<V>, c: nat, works: bool): State<V>
    requires Enabled(setup, s, Turn(c, works))
  {
    var (t, phase) := Move(setup, s, c, works);
    t.(phases := s.phases[c := phase])
  }

  function Apply<V>(setup: Setup<V>, s: State<V>, act: Act): State<V>
    requires Enabled(setup, s, act)
  {
    match act
    case Spawn(p) => s.(running := s.running + {p}, next := s.next[p := 0])
    case Crash(p) =>
      s.(running := s.running - {p},
         holder := if s.holder.Some? && setup.calls(s.holder.value).process == p then None else s.holder,
         phases := map c | c in s.phases ::
           if setup.calls(c).process == p && !s.phases[c].Done? then Dead else s.phases[c])
    case Turn(c, works) => Took(setup, s, c, works)
  }

  predicate Possible<V>(setup: Setup<V>, acts: seq<Act>)
    decreases |acts|, 0
  {
    acts == [] ||
    (Possible(setup, acts[..|acts| - 1]) && Enabled(setup, After(setup, acts[..|acts| - 1]), acts[|acts| - 1]))
  }

  function After<V>(setup: Setup<V>, acts: seq<Act>): State<V>
    requires Possible(setup, acts)
    decreases |acts|, 1
  {
    if acts == [] then Initially(setup) else Apply(setup, After(setup, acts[..|acts| - 1]), acts[|acts| - 1])
  }

  // ----- Names and contents: true of every writer, locked or not -----

  function NameOf<V>(phase: Phase<V>): Option<Temp> {
    match phase
    case Naming(_, temp) => Some(temp)
    case Writing(_, temp) => Some(temp)
    case Written(_, temp) => Some(temp)
    case Failing(temp) => Some(temp)
    case _ => None
  }

  /** A call's own part: its process is alive while it runs, its name is its process's, and its file is its own work. */
  ghost predicate Sound<V>(setup: Setup<V>, s: State<V>, c: nat)
    requires c in s.phases
  {
    var phase, p := s.phases[c], setup.calls(c).process;
    && (phase.Done? || phase.Dead? || p in s.running)
    && (NameOf(phase).Some? ==>
          && p in s.next
          && NameOf(phase).value.pid == setup.pid(p) && NameOf(phase).value.n < s.next[p])
    && (phase.Writing? || phase.Failing? ==> phase.temp in s.temps)
    && (phase.Written? ==> phase.temp in s.temps && s.temps[phase.temp] == Whole(phase.value))
  }

  predicate Apart<V>(s: State<V>, c: nat, d: nat)
    requires c in s.phases && d in s.phases
  {
    c != d && NameOf(s.phases[c]).Some? ==> NameOf(s.phases[c]) != NameOf(s.phases[d])
  }

  ghost predicate Tidy<V>(setup: Setup<V>, s: State<V>) {
    && (forall p | p in s.running :: p in s.next)
    && (forall p, q | p in s.running && q in s.running && p != q :: setup.pid(p) != setup.pid(q))
    && (forall c | c in s.phases :: Sound(setup, s, c))
    && (forall c, d | c in s.phases && d in s.phases :: Apart(s, c, d))
    && (s.file == setup.initial || (s.file.Some? && s.file.value.Whole?))
  }

  lemma SpawnTidies<V>(setup: Setup<V>, s: State<V>, p: nat)
    requires Tidy(setup, s) && Enabled(setup, s, Spawn(p))
    ensures Tidy(setup, Apply(setup, s, Spawn(p)))
  {
    var t := Apply(setup, s, Spawn(p));
    forall c | c in t.phases ensures Sound(setup, t, c) { assert Sound(setup, s, c); }
    forall c, d | c in t.phases && d in t.phases ensures Apart(t, c, d) { assert Apart(s, c, d); }
  }

  lemma CrashTidies<V>(setup: Setup<V>, s: State<V>, p: nat)
    requires Tidy(setup, s) && Enabled(setup, s, Crash(p))
    ensures Tidy(setup, Apply(setup, s, Crash(p)))
  {
    var t := Apply(setup, s, Crash(p));
    forall c | c in t.phases ensures Sound(setup, t, c) { assert Sound(setup, s, c); }
    forall c, d | c in t.phases && d in t.phases ensures Apart(t, c, d) { assert Apart(s, c, d); }
  }

  /** A turn changes its own call's phase and its own process's count, and nobody else's. */
  lemma TurnIsItsOwn<V>(setup: Setup<V>, s: State<V>, c: nat, works: bool)
    requires Enabled(setup, s, Turn(c, works))
    ensures var t := Took(setup, s, c, works);
            && t.running == s.running
            && c in t.phases && t.phases == s.phases[c := t.phases[c]]
  {
  }

  lemma TurnCountsItsOwn<V>(setup: Setup<V>, s: State<V>, c: nat, works: bool)
    requires Enabled(setup, s, Turn(c, works))
    ensures var t := Took(setup, s, c, works);
            && t.next.Keys == s.next.Keys
            && (forall p | p in s.next :: s.next[p] <= t.next[p])
  {
    if c in s.phases && s.phases[c].Changed? && works {
      var p := setup.calls(c).process;
      assert Took(setup, s, c, works).next == s.next[p := s.next[p] + 1];
    } else {
      assert Took(setup, s, c, works).next == s.next;
    }
  }

  /** And of the files, only the one it has named, and the one it is all for. */
  lemma TurnTouchesItsFile<V>(setup: Setup<V>, s: State<V>, c: nat, works: bool)
    requires Enabled(setup, s, Turn(c, works)) && (c in s.phases ==> Sound(setup, s, c))
    ensures var t := Took(setup, s, c, works);
            && (forall temp | c !in s.phases || NameOf(s.phases[c]) != Some(temp) ::
                  (temp in t.temps <==> temp in s.temps) && (temp in s.temps ==> t.temps[temp] == s.temps[temp]))
            && (t.file == s.file || (t.file.Some? && t.file.value.Whole?))
  {
  }

  lemma TurnIsSound<V>(setup: Setup<V>, s: State<V>, c: nat, works: bool)
    requires Enabled(setup, s, Turn(c, works)) && (c in s.phases ==> Sound(setup, s, c))
    ensures Sound(setup, Took(setup, s, c, works), c)
    ensures TakesANewName(setup, s, Took(setup, s, c, works), c)
  {
  }

  ghost predicate TakesANewName<V>(setup: Setup<V>, s: State<V>, t: State<V>, c: nat)
    requires c in t.phases
  {
    var p := setup.calls(c).process;
    NameOf(t.phases[c]).Some? ==>
      || (c in s.phases && NameOf(t.phases[c]) == NameOf(s.phases[c]))
      || (p in s.next && NameOf(t.phases[c]) == Some(Temp(setup.pid(p), s.next[p])))
  }

  lemma TurnTidies<V>(setup: Setup<V>, s: State<V>, c: nat, works: bool)
    requires Tidy(setup, s) && Enabled(setup, s, Turn(c, works))
    ensures Tidy(setup, Took(setup, s, c, works))
  {
    if c in s.phases { assert Sound(setup, s, c); }
    TurnIsItsOwn(setup, s, c, works);
    TurnCountsItsOwn(setup, s, c, works);
    TurnTouchesItsFile(setup, s, c, works);
    TurnIsSound(setup, s, c, works);
    var t := Took(setup, s, c, works);
    hide Took;
    forall d | d in t.phases ensures Sound(setup, t, d) {
      if d != c {
        assert Sound(setup, s, d);
        if c in s.phases { assert Apart(s, c, d); }
      }
    }
    forall d | d in s.phases && d != c ensures Apart(t, c, d) && Apart(t, d, c) {
      assert Sound(setup, s, d);
      if c in s.phases { assert Apart(s, c, d); }
    }
    forall d, e | d in t.phases && e in t.phases ensures Apart(t, d, e) {
      if d != c && e != c { assert Apart(s, d, e); }
    }
  }

  lemma {:induction false} RunsAreTidy<V>(setup: Setup<V>, acts: seq<Act>)
    requires Possible(setup, acts)
    ensures Tidy(setup, After(setup, acts))
    decreases |acts|
  {
    if acts != [] {
      var before := After(setup, acts[..|acts| - 1]);
      RunsAreTidy(setup, acts[..|acts| - 1]);
      match acts[|acts| - 1]
      case Spawn(p) => SpawnTidies(setup, before, p);
      case Crash(p) => CrashTidies(setup, before, p);
      case Turn(c, works) => TurnTidies(setup, before, c, works);
    }
  }

  /**
    However writers interleave, lock or no lock, what is at the path was there at first
    or is one writer's whole value.
   */
  lemma NeverTorn<V>(setup: Setup<V>, acts: seq<Act>)
    requires Possible(setup, acts)
    ensures var file := After(setup, acts).file;
            file == setup.initial || (file.Some? && file.value.Whole?)
  {
    RunsAreTidy(setup, acts);
  }

  /** No two writers under way ever have one temporary file between them, whatever pids come round again. */
  lemma NeverShared<V>(setup: Setup<V>, acts: seq<Act>, c: nat, d: nat)
    requires Possible(setup, acts) && c != d
    requires c in After(setup, acts).phases && d in After(setup, acts).phases
    requires NameOf(After(setup, acts).phases[c]).Some?
    ensures NameOf(After(setup, acts).phases[c]) != NameOf(After(setup, acts).phases[d])
  {
    RunsAreTidy(setup, acts);
    assert Apart(After(setup, acts), c, d);
  }

  // ----- Values: true when every writer takes the lock -----

  ghost predicate AllLock<V>(setup: Setup<V>) {
    forall c: nat :: setup.calls(c).locks
  }

  /** The changes in `commits`, one after another, from what was there at first. */
  function Fold<V>(setup: Setup<V>, commits: seq<nat>): V {
    if commits == [] then
      if setup.initial.Some? && setup.initial.value.Whole? then setup.initial.value.value else setup.default
    else
      var before := Fold(setup, commits[..|commits| - 1]);
      match setup.calls(commits[|commits| - 1]).change(before)
      case Some(v) => v
      case None => before
  }

  predicate Critical<V>(phase: Phase<V>) {
    !phase.Opened? && !phase.Done? && !phase.Dead?
  }

  predicate Committed<V>(phase: Phase<V>) {
    phase.Installed? || phase == Done(true)
  }

  /** A call holding the lock is working on the value the file has, and only such a call is past the lock. */
  ghost predicate Current<V>(setup: Setup<V>, s: State<V>, c: nat)
    requires c in s.phases
  {
    var phase, now := s.phases[c], Fold(setup, s.commits);
    && (Critical(phase) <==> s.holder == Some(c))
    && (phase.Loaded? ==> phase.value == now && s.file != Some(Torn))
    && (phase.Changed? || phase.Naming? || phase.Writing? || phase.Written? ==>
          setup.calls(c).change(now) == Some(phase.value) && s.file != Some(Torn))
    && (Committed(phase) ==> c in s.commits)
    && (c in s.commits ==> Committed(phase) || phase.Dead?)
  }

  ghost predicate Serial<V>(setup: Setup<V>, s: State<V>) {
    && (s.holder.Some? ==> s.holder.value in s.phases)
    && (forall c | c in s.phases :: Current(setup, s, c))
    && (forall c | c in s.commits :: c in s.phases)
    && (forall i, j | 0 <= i < j < |s.commits| :: s.commits[i] != s.commits[j])
    && s.file == (if s.commits == [] then setup.initial else Some(Whole(Fold(setup, s.commits))))
  }

  lemma OthersStaySerial<V>(setup: Setup<V>, s: State<V>, act: Act)
    requires Tidy(setup, s) && Serial(setup, s) && Enabled(setup, s, act) && !act.Turn?
    ensures Serial(setup, Apply(setup, s, act))
  {
    var t := Apply(setup, s, act);
    assert t.phases.Keys == s.phases.Keys;
    forall c | c in t.phases ensures Current(setup, t, c) {
      assert Current(setup, s, c);
      if act.Crash? && s.holder == Some(c) { assert Sound(setup, s, c); }
    }
  }

  /** A turn takes or gives up the lock for its own call and no other, and short of installing commits nothing. */
  lemma TurnMindsTheLock<V>(setup: Setup<V>, s: State<V>, c: nat, works: bool)
    requires Enabled(setup, s, Turn(c, works))
    requires c in s.phases ==> !s.phases[c].Written?
    ensures var t := Took(setup, s, c, works);
            && t.commits == s.commits && t.file == s.file
            && (t.holder == s.holder || (t.holder == Some(c) && s.holder == None) || (t.holder == None && s.holder == Some(c)))
  {
  }

  /** It goes on working on the value the file has. */
  lemma TurnStaysCurrent<V>(setup: Setup<V>, s: State<V>, c: nat, works: bool)
    requires Enabled(setup, s, Turn(c, works)) && setup.calls(c).locks
    requires c in s.phases ==> !s.phases[c].Written? && Current(setup, s, c)
    requires c !in s.phases ==> s.holder != Some(c) && c !in s.commits
    requires s.file == (if s.commits == [] then setup.initial else Some(Whole(Fold(setup, s.commits))))
    ensures c in Took(setup, s, c, works).phases && Current(setup, Took(setup, s, c, works), c)
  {
    TurnMindsTheLock(setup, s, c, works);
    if c in s.phases && s.phases[c].Inside? {
      LoadingIsCurrent(setup, s, c, works);
    }
  }

  lemma LoadingIsCurrent<V>(setup: Setup<V>, s: State<V>, c: nat, works: bool)
    requires Enabled(setup, s, Turn(c, works)) && setup.calls(c).locks
    requires c in s.phases && s.phases[c].Inside? && Current(setup, s, c)
    requires s.file == (if s.commits == [] then setup.initial else Some(Whole(Fold(setup, s.commits))))
    ensures c in Took(setup, s, c, works).phases && Current(setup, Took(setup, s, c, works), c)
  {
  }

  lemma TurnStaysSerial<V>(setup: Setup<V>, s: State<V>, c: nat, works: bool)
    requires AllLock(setup) && Tidy(setup, s) && Serial(setup, s) && Enabled(setup, s, Turn(c, works))
    requires c in s.phases ==> !s.phases[c].Written?
    ensures Serial(setup, Took(setup, s, c, works))
  {
    var t := Took(setup, s, c, works);
    if c in s.phases { assert Current(setup, s, c); }
    TurnMindsTheLock(setup, s, c, works);
    TurnStaysCurrent(setup, s, c, works);
    TurnIsItsOwn(setup, s, c, works);
    hide Took, Fold, Sound;
    forall d | d in t.phases ensures Current(setup, t, d) {
      if d != c { assert Current(setup, s, d); }
    }
  }

  lemma InstallStaysSerial<V>(setup: Setup<V>, s: State<V>, c: nat, works: bool)
    requires AllLock(setup) && Tidy(setup, s) && Serial(setup, s) && Enabled(setup, s, Turn(c, works))
    requires c in s.phases && s.phases[c].Written?
    ensures Serial(setup, Took(setup, s, c, works))
  {
    var t := Took(setup, s, c, works);
    assert Current(setup, s, c);
    assert Sound(setup, s, c);
    if t.commits != s.commits { assert t.commits[..|t.commits| - 1] == s.commits; }
    forall d | d in t.phases ensures Current(setup, t, d) {
      if d != c { assert Current(setup, s, d); }
    }
  }

  lemma {:induction false} RunsAreSerial<V>(setup: Setup<V>, acts: seq<Act>)
    requires AllLock(setup) && Possible(setup, acts)
    ensures Tidy(setup, After(setup, acts)) && Serial(setup, After(setup, acts))
    decreases |acts|
  {
    RunsAreTidy(setup, acts);
    if acts != [] {
      var before, act := After(setup, acts[..|acts| - 1]), acts[|acts| - 1];
      RunsAreSerial(setup, acts[..|acts| - 1]);
      hide Serial, Tidy, Enabled, Took;
      if !act.Turn? {
        OthersStaySerial(setup, before, act);
      } else if act.call in before.phases && before.phases[act.call].Written? {
        InstallStaysSerial(setup, before, act.call, act.works);
      } else {
        TurnStaysSerial(setup, before, act.call, act.works);
      }
    }
  }

  /** The file is always the committed changes folded in the order their calls held the lock. */
  lemma NoUpdateIsLost<V>(setup: Setup<V>, acts: seq<Act>)
    requires AllLock(setup) && Possible(setup, acts)
    ensures var s := After(setup, acts);
            s.file == if s.commits == [] then setup.initial else Some(Whole(Fold(setup, s.commits)))
  {
    RunsAreSerial(setup, acts);
  }

  /** A call that said Ok is in that fold, once; one that said otherwise is not in it at all. */
  lemma AnswersAreTrue<V>(setup: Setup<V>, acts: seq<Act>, c: nat, ok: bool)
    requires AllLock(setup) && Possible(setup, acts)
    requires c in After(setup, acts).phases && After(setup, acts).phases[c] == Done(ok)
    ensures multiset(After(setup, acts).commits)[c] == if ok then 1 else 0
  {
    RunsAreSerial(setup, acts);
    assert Current(setup, After(setup, acts), c);
    CountDistinct(After(setup, acts).commits, c);
  }

  lemma {:induction false} CountDistinct(s: seq<nat>, c: nat)
    requires forall i, j | 0 <= i < j < |s| :: s[i] != s[j]
    ensures multiset(s)[c] == if c in s then 1 else 0
  {
    if s != [] {
      CountDistinct(s[1..], c);
      assert s == [s[0]] + s[1..];
    }
  }

  /** A step commits nothing, or one call whose change was made of the value the file had. */
  lemma StepCommitsAChange<V>(setup: Setup<V>, s: State<V>, act: Act)
    requires AllLock(setup) && Serial(setup, s) && Enabled(setup, s, act)
    ensures var t := Apply(setup, s, act);
            t.commits == s.commits ||
            (&& act.Turn? && t.commits == s.commits + [act.call]
             && setup.calls(act.call).change(Fold(setup, s.commits)).Some?)
  {
    hide Fold, Sound;
    if act.Turn? {
      if act.call in s.phases && s.phases[act.call].Written? {
        assert Current(setup, s, act.call);
      } else {
        TurnMindsTheLock(setup, s, act.call, act.works);
      }
    }
  }

  lemma FoldOneMore<V>(setup: Setup<V>, commits: seq<nat>, c: nat)
    requires setup.calls(c).change(Fold(setup, commits)).Some?
    ensures setup.calls(c).change(Fold(setup, commits)) == Some(Fold(setup, commits + [c]))
  {
    assert (commits + [c])[..|commits|] == commits;
  }

  /** Every change in the fold was made of the very value before it, so none was a refusal. */
  lemma {:induction false} EveryCommitChanged<V>(setup: Setup<V>, acts: seq<Act>, i: nat)
    requires AllLock(setup) && Possible(setup, acts) && i < |After(setup, acts).commits|
    ensures var commits := After(setup, acts).commits;
            setup.calls(commits[i]).change(Fold(setup, commits[..i])) == Some(Fold(setup, commits[..i + 1]))
    decreases |acts|
  {
    var now := After(setup, acts).commits;
    var before, act := After(setup, acts[..|acts| - 1]), acts[|acts| - 1];
    RunsAreSerial(setup, acts[..|acts| - 1]);
    hide Fold, Serial, Tidy, Apply;
    StepCommitsAChange(setup, before, act);
    if i < |before.commits| {
      EveryCommitChanged(setup, acts[..|acts| - 1], i);
      assert now[..i] == before.commits[..i] && now[..i + 1] == before.commits[..i + 1];
    } else {
      FoldOneMore(setup, before.commits, act.call);
      assert now[..i] == before.commits && now[..i + 1] == now;
    }
  }

  lemma CommitsGrow<V>(setup: Setup<V>, s: State<V>, act: Act)
    requires Enabled(setup, s, act)
    ensures s.commits <= Apply(setup, s, act).commits
    ensures s.file.Some? ==> Apply(setup, s, act).file.Some?
  {
  }

  // ----- Readers, who take no lock -----

  /** What `load_toml` finds when it looks for the file at one moment and opens it at a later one. */
  function Read<V>(setup: Setup<V>, looked: State<V>, later: State<V>): Result<V, ()> {
    if looked.file.None? then Ok(setup.default)
    else
      match later.file
      case Some(Whole(v)) => Ok(v)
      case _ => Err(())
  }

  /**
    A reader sees the fold as it stood when it looked or when it opened, or fails
    because of what was there at first.
   */
  lemma ReadersSeeAFold<V>(setup: Setup<V>, acts: seq<Act>, looked: nat)
    requires AllLock(setup) && Possible(setup, acts) && looked <= |acts|
    requires Possible(setup, acts[..looked])
    ensures var early, late := After(setup, acts[..looked]), After(setup, acts);
            && early.commits <= late.commits
            && match Read(setup, early, late)
               case Ok(v) => v == Fold(setup, early.commits) || v == Fold(setup, late.commits)
               case Err(_) => late.commits == [] && setup.initial == Some(Torn)
  {
    NoUpdateIsLost(setup, acts);
    NoUpdateIsLost(setup, acts[..looked]);
    CommitsOnlyGrow(setup, acts, looked);
    hide Possible, After;
  }

  lemma {:induction false} CommitsOnlyGrow<V>(setup: Setup<V>, acts: seq<Act>, from: nat)
    requires Possible(setup, acts) && from <= |acts|
    ensures Possible(setup, acts[..from])
    ensures After(setup, acts[..from]).commits <= After(setup, acts).commits
    ensures After(setup, acts[..from]).file.Some? ==> After(setup, acts).file.Some?
    decreases |acts|
  {
    if from == |acts| {
      assert acts[..from] == acts;
    } else {
      var most := acts[..|acts| - 1];
      CommitsOnlyGrow(setup, most, from);
      assert most[..from] == acts[..from];
      CommitsGrow(setup, After(setup, most), acts[|acts| - 1]);
    }
  }

  // ----- A call nobody gets in the way of -----

  /** So many turns of one call, every step of which works, lead from one state to another. */
  ghost predicate Leads<V>(setup: Setup<V>, s: State<V>, c: nat, turns: nat, t: State<V>)
    decreases turns
  {
    if turns == 0 then s == t
    else Enabled(setup, s, Turn(c, true)) && Leads(setup, Took(setup, s, c, true), c, turns - 1, t)
  }

  lemma {:induction false} LeadsOn<V>(setup: Setup<V>, s: State<V>, c: nat, m: nat, t: State<V>, n: nat, u: State<V>)
    requires Leads(setup, s, c, m, t) && Leads(setup, t, c, n, u)
    ensures Leads(setup, s, c, m + n, u)
    decreases m
  {
    if m > 0 { LeadsOn(setup, Took(setup, s, c, true), c, m - 1, t, n, u); }
  }

  function Turns(c: nat, n: nat): seq<Act> {
    seq(n, i => Turn(c, true))
  }

  lemma {:induction false} LeadsThere<V>(setup: Setup<V>, acts: seq<Act>, c: nat, n: nat, t: State<V>)
    requires Possible(setup, acts) && Leads(setup, After(setup, acts), c, n, t)
    ensures Possible(setup, acts + Turns(c, n)) && After(setup, acts + Turns(c, n)) == t
    decreases n
  {
    if n == 0 {
      assert acts + Turns(c, 0) == acts;
    } else {
      var one := acts + [Turn(c, true)];
      assert one[..|one| - 1] == acts && one[|one| - 1] == Turn(c, true);
      assert Possible(setup, one) && After(setup, one) == Took(setup, After(setup, acts), c, true);
      LeadsThere(setup, one, c, n - 1, t);
      assert acts + Turns(c, n) == one + Turns(c, n - 1);
    }
  }

  function Told<V>(s: State<V>, c: nat, phase: Phase<V>): State<V> {
    s.(phases := s.phases[c := phase])
  }

  /** Whether a call can begin: its process runs, and nobody has the lock. */
  ghost predicate IsFree<V>(setup: Setup<V>, s: State<V>, c: nat) {
    var p := setup.calls(c).process;
    c !in s.phases && s.holder == None && setup.calls(c).locks && p in s.running && p in s.next
  }

  /** The value a call finds. */
  function Found<V>(setup: Setup<V>, s: State<V>): Option<V> {
    match s.file
    case None => Some(setup.default)
    case Some(Whole(v)) => Some(v)
    case Some(Torn) => None
  }

  lemma ReadingLeads<V>(setup: Setup<V>, s: State<V>, c: nat, v: V)
    requires IsFree(setup, s, c) && Found(setup, s) == Some(v)
    ensures Leads(setup, s, c, 3, Told(s.(holder := Some(c)), c, Loaded(v)))
  {
    var s1 := Told(s, c, Opened);
    var s2 := Told(s.(holder := Some(c)), c, Inside);
    var s3 := Told(s.(holder := Some(c)), c, Loaded(v));
    assert Took(setup, s, c, true) == s1;
    assert Took(setup, s1, c, true) == s2 by { assert s1.phases[c := Inside] == s.phases[c := Inside]; }
    assert Took(setup, s2, c, true) == s3 by { assert s2.phases[c := Loaded(v)] == s.phases[c := Loaded(v)]; }
    assert Leads(setup, s3, c, 0, s3);
    assert Leads(setup, s2, c, 1, s3);
    assert Leads(setup, s1, c, 2, s3);
  }

  /** Names a process of this pid left behind cost two turns each, and the count goes on past them. */
  lemma {:induction false} NamesAreSkipped<V>(setup: Setup<V>, s: State<V>, c: nat, v: V, k: nat)
    requires c in s.phases && s.phases[c] == Changed(v)
    requires var p := setup.calls(c).process;
             && p in s.running && p in s.next
             && forall n | s.next[p] <= n < s.next[p] + k :: Temp(setup.pid(p), n) in s.temps
    ensures var p := setup.calls(c).process; Leads(setup, s, c, 2 * k, s.(next := s.next[p := s.next[p] + k]))
    decreases k
  {
    var p := setup.calls(c).process;
    if k == 0 {
      assert s.next[p := s.next[p]] == s.next;
    } else {
      var n := s.next[p];
      var temp := Temp(setup.pid(p), n);
      var after := s.(next := s.next[p := n + 1]);
      var named := Told(after, c, Naming(v, temp));
      assert Took(setup, s, c, true) == named;
      assert Took(setup, named, c, true) == after by { assert named.phases[c := Changed(v)] == s.phases; }
      NamesAreSkipped(setup, after, c, v, k - 1);
      assert after.next[p := n + 1 + (k - 1)] == s.next[p := n + k];
      assert Leads(setup, named, c, 2 * k - 1, s.(next := s.next[p := n + k]));
    }
  }

  lemma OneTurnLeads<V>(setup: Setup<V>, s: State<V>, c: nat, t: State<V>)
    requires Enabled(setup, s, Turn(c, true)) && Took(setup, s, c, true) == t
    ensures Leads(setup, s, c, 1, t)
  {
    hide Took, Enabled;
    assert Leads(setup, t, c, 0, t);
  }

  /** A call at work under a fresh name, so far. */
  function NamedBy<V>(setup: Setup<V>, s: State<V>, c: nat, v: V): State<V>
    requires setup.calls(c).process in s.next
  {
    var p := setup.calls(c).process;
    Told(s.(next := s.next[p := s.next[p] + 1]), c, Naming(v, Temp(setup.pid(p), s.next[p])))
  }

  function MadeBy<V>(setup: Setup<V>, s: State<V>, c: nat, v: V): State<V>
    requires setup.calls(c).process in s.next
  {
    var p := setup.calls(c).process;
    var temp := Temp(setup.pid(p), s.next[p]);
    Told(s.(next := s.next[p := s.next[p] + 1], temps := s.temps[temp := Torn]), c, Writing(v, temp))
  }

  lemma NamingLeads<V>(setup: Setup<V>, s: State<V>, c: nat, v: V)
    requires c in s.phases && s.phases[c] == Changed(v)
    requires setup.calls(c).process in s.running && setup.calls(c).process in s.next
    ensures Leads(setup, s, c, 1, NamedBy(setup, s, c, v))
  {
    OneTurnLeads(setup, s, c, NamedBy(setup, s, c, v));
  }

  lemma MakingLeads<V>(setup: Setup<V>, s: State<V>, c: nat, v: V)
    requires c in s.phases && s.phases[c] == Changed(v)
    requires var p := setup.calls(c).process;
             p in s.running && p in s.next && Temp(setup.pid(p), s.next[p]) !in s.temps
    ensures Leads(setup, NamedBy(setup, s, c, v), c, 1, MadeBy(setup, s, c, v))
  {
    var t, made := NamedBy(setup, s, c, v), MadeBy(setup, s, c, v);
    assert t.phases[c := made.phases[c]] == made.phases;
    OneTurnLeads(setup, t, c, made);
  }

  lemma FillingLeads<V>(setup: Setup<V>, s: State<V>, c: nat, v: V)
    requires c in s.phases && s.phases[c] == Changed(v)
    requires var p := setup.calls(c).process;
             p in s.running && p in s.next && Temp(setup.pid(p), s.next[p]) !in s.temps
    ensures Leads(setup, MadeBy(setup, s, c, v), c, 1, WrittenBy(setup, s, c, v))
  {
    var t, written := MadeBy(setup, s, c, v), WrittenBy(setup, s, c, v);
    assert t.phases[c := written.phases[c]] == written.phases;
    assert t.temps[written.phases[c].temp := Whole(v)] == written.temps;
    OneTurnLeads(setup, t, c, written);
  }

  lemma WritingLeads<V>(setup: Setup<V>, s: State<V>, c: nat, v: V)
    requires c in s.phases && s.phases[c] == Changed(v)
    requires var p := setup.calls(c).process;
             p in s.running && p in s.next && Temp(setup.pid(p), s.next[p]) !in s.temps
    ensures Leads(setup, s, c, 3, WrittenBy(setup, s, c, v))
  {
    hide *;
    NamingLeads(setup, s, c, v);
    MakingLeads(setup, s, c, v);
    FillingLeads(setup, s, c, v);
    LeadsOn(setup, s, c, 1, NamedBy(setup, s, c, v), 1, MadeBy(setup, s, c, v));
    LeadsOn(setup, s, c, 2, MadeBy(setup, s, c, v), 1, WrittenBy(setup, s, c, v));
  }

  lemma InstallingLeads<V>(setup: Setup<V>, s: State<V>, c: nat, v: V, temp: Temp)
    requires c in s.phases && s.phases[c] == Written(v, temp) && s.holder == Some(c)
    requires setup.calls(c).process in s.running && setup.calls(c).process in s.next
    requires temp in s.temps && s.temps[temp] == Whole(v)
    ensures Leads(setup, s, c, 2, Told(s.(file := Some(Whole(v)), temps := s.temps - {temp}, commits := s.commits + [c],
                                          holder := None), c, Done(true)))
  {
    var s0 := s.(file := Some(Whole(v)), temps := s.temps - {temp}, commits := s.commits + [c]);
    var s1 := Told(s0, c, Installed);
    var s2 := Told(s0.(holder := None), c, Done(true));
    assert Took(setup, s, c, true) == s1;
    assert Took(setup, s1, c, true) == s2 by { assert s1.phases[c := Done(true)] == s.phases[c := Done(true)]; }
    assert Leads(setup, s2, c, 0, s2);
    assert Leads(setup, s1, c, 1, s2);
  }

  /** A call that has written its whole value under a fresh name. */
  function WrittenBy<V>(setup: Setup<V>, s: State<V>, c: nat, v: V): State<V>
    requires setup.calls(c).process in s.next
  {
    var p := setup.calls(c).process;
    var temp := Temp(setup.pid(p), s.next[p]);
    Told(s.(next := s.next[p := s.next[p] + 1], temps := s.temps[temp := Whole(v)]), c, Written(v, temp))
  }

  /** And one that has put it in place and returned. */
  function SavedBy<V>(setup: Setup<V>, s: State<V>, c: nat, v: V): State<V>
    requires setup.calls(c).process in s.next
  {
    var p := setup.calls(c).process;
    Told(s.(file := Some(Whole(v)), commits := s.commits + [c], holder := None, next := s.next[p := s.next[p] + 1]), c,
         Done(true))
  }

  lemma WrittenThenSaved<V>(setup: Setup<V>, s: State<V>, c: nat, v: V)
    requires c in s.phases && s.phases[c] == Changed(v) && s.holder == Some(c)
    requires var p := setup.calls(c).process;
             p in s.running && p in s.next && Temp(setup.pid(p), s.next[p]) !in s.temps
    ensures var t, p := WrittenBy(setup, s, c, v), setup.calls(c).process;
            var temp := Temp(setup.pid(p), s.next[p]);
            && c in t.phases && t.phases[c] == Written(v, temp) && t.holder == Some(c) && p in t.running && p in t.next
            && temp in t.temps && t.temps[temp] == Whole(v)
            && Told(t.(file := Some(Whole(v)), temps := t.temps - {temp}, commits := t.commits + [c], holder := None), c,
                    Done(true)) == SavedBy(setup, s, c, v)
  {
    var t, p := WrittenBy(setup, s, c, v), setup.calls(c).process;
    assert t.temps - {Temp(setup.pid(p), s.next[p])} == s.temps;
    assert t.phases[c := Done(true)] == s.phases[c := Done(true)];
  }

  lemma SavingLeads<V>(setup: Setup<V>, s: State<V>, c: nat, v: V)
    requires c in s.phases && s.phases[c] == Changed(v) && s.holder == Some(c)
    requires var p := setup.calls(c).process;
             p in s.running && p in s.next && Temp(setup.pid(p), s.next[p]) !in s.temps
    ensures Leads(setup, s, c, 5, SavedBy(setup, s, c, v))
  {
    hide *;
    var p := setup.calls(c).process;
    WritingLeads(setup, s, c, v);
    WrittenThenSaved(setup, s, c, v);
    InstallingLeads(setup, WrittenBy(setup, s, c, v), c, v, Temp(setup.pid(p), s.next[p]));
    LeadsOn(setup, s, c, 3, WrittenBy(setup, s, c, v), 2, SavedBy(setup, s, c, v));
  }

  /**
    After any run, a call that can begin, whose change of what is there is not a
    refusal, and whom nothing fails or interrupts, puts the changed value in the file
    and says so, whatever names are left lying about; and gives the lock up.
   */
  lemma CallLeftAloneCommits<V>(setup: Setup<V>, acts: seq<Act>, c: nat, v: V, w: V, k: nat)
    requires Possible(setup, acts) && IsFree(setup, After(setup, acts), c)
    requires Found(setup, After(setup, acts)) == Some(v) && setup.calls(c).change(v) == Some(w)
    requires var s, p := After(setup, acts), setup.calls(c).process;
             && Temp(setup.pid(p), s.next[p] + k) !in s.temps
             && forall n | s.next[p] <= n < s.next[p] + k :: Temp(setup.pid(p), n) in s.temps
    ensures var s, all, p := After(setup, acts), acts + Turns(c, 9 + 2 * k), setup.calls(c).process;
            && Possible(setup, all)
            && After(setup, all) == State(Some(Whole(w)), s.temps, None, s.running, s.next[p := s.next[p] + k + 1],
                                          s.phases[c := Done(true)], s.commits + [c])
  {
    hide *;
    var s := After(setup, acts);
    FreeProcess(setup, s, c);
    FreeCallLeads(setup, s, c, v, w, k);
    LeadsThere(setup, acts, c, 9 + 2 * k, CommittedBy(setup, s, c, w, k));
    CommittedIs(setup, s, c, w, k);
  }

  lemma FreeProcess<V>(setup: Setup<V>, s: State<V>, c: nat)
    requires IsFree(setup, s, c)
    ensures setup.calls(c).process in s.next
  {
  }

  lemma CommittedIs<V>(setup: Setup<V>, s: State<V>, c: nat, w: V, k: nat)
    requires setup.calls(c).process in s.next
    ensures var p := setup.calls(c).process;
            CommittedBy(setup, s, c, w, k) ==
            State(Some(Whole(w)), s.temps, None, s.running, s.next[p := s.next[p] + k + 1], s.phases[c := Done(true)],
                  s.commits + [c])
  {
  }

  /** What a call left alone comes to. */
  function CommittedBy<V>(setup: Setup<V>, s: State<V>, c: nat, w: V, k: nat): State<V>
    requires setup.calls(c).process in s.next
  {
    var p := setup.calls(c).process;
    State(Some(Whole(w)), s.temps, None, s.running, s.next[p := s.next[p] + k + 1], s.phases[c := Done(true)],
          s.commits + [c])
  }

  lemma ChangingLeads<V>(setup: Setup<V>, s: State<V>, c: nat, v: V, w: V)
    requires IsFree(setup, s, c) && Found(setup, s) == Some(v) && setup.calls(c).change(v) == Some(w)
    ensures Leads(setup, s, c, 4, Told(s.(holder := Some(c)), c, Changed(w)))
  {
    var loaded := Told(s.(holder := Some(c)), c, Loaded(v));
    var changed := Told(s.(holder := Some(c)), c, Changed(w));
    ReadingLeads(setup, s, c, v);
    assert Took(setup, loaded, c, true) == changed by { assert loaded.phases[c := Changed(w)] == s.phases[c := Changed(w)]; }
    assert Leads(setup, changed, c, 0, changed);
    assert Leads(setup, loaded, c, 1, changed);
    LeadsOn(setup, s, c, 3, loaded, 1, changed);
  }

  /** A call that has changed the value, with some names behind it. */
  function ChangedBy<V>(setup: Setup<V>, s: State<V>, c: nat, w: V, k: nat): State<V>
    requires setup.calls(c).process in s.next
  {
    var p := setup.calls(c).process;
    Told(s.(holder := Some(c), next := s.next[p := s.next[p] + k]), c, Changed(w))
  }

  lemma ChangedThenCommitted<V>(setup: Setup<V>, s: State<V>, c: nat, w: V, k: nat)
    requires setup.calls(c).process in s.running && setup.calls(c).process in s.next
    ensures var t, p := ChangedBy(setup, s, c, w, k), setup.calls(c).process;
            && c in t.phases && t.phases[c] == Changed(w) && t.holder == Some(c)
            && p in t.running && p in t.next && t.next[p] == s.next[p] + k && t.temps == s.temps
            && SavedBy(setup, t, c, w) == CommittedBy(setup, s, c, w, k)
            && ChangedBy(setup, s, c, w, 0) == Told(s.(holder := Some(c)), c, Changed(w))
            && t == ChangedBy(setup, s, c, w, 0).(next := s.next[p := s.next[p] + k])
  {
    var t, p := ChangedBy(setup, s, c, w, k), setup.calls(c).process;
    assert t.phases[c := Done(true)] == s.phases[c := Done(true)];
    assert t.next[p := t.next[p] + 1] == s.next[p := s.next[p] + k + 1];
    assert s.next[p := s.next[p] + 0] == s.next;
  }

  lemma FreeCallLeads<V>(setup: Setup<V>, s: State<V>, c: nat, v: V, w: V, k: nat)
    requires IsFree(setup, s, c) && Found(setup, s) == Some(v) && setup.calls(c).change(v) == Some(w)
    requires var p := setup.calls(c).process;
             && Temp(setup.pid(p), s.next[p] + k) !in s.temps
             && forall n | s.next[p] <= n < s.next[p] + k :: Temp(setup.pid(p), n) in s.temps
    ensures Leads(setup, s, c, 9 + 2 * k, CommittedBy(setup, s, c, w, k))
  {
    hide Told, Found, SavedBy, ChangedBy, CommittedBy, Leads;
    ChangingLeads(setup, s, c, v, w);
    ChangedThenCommitted(setup, s, c, w, 0);
    ChangedThenCommitted(setup, s, c, w, k);
    hide IsFree;
    var changed, skipped := ChangedBy(setup, s, c, w, 0), ChangedBy(setup, s, c, w, k);
    SkippingLeads(setup, changed, c, w, k, skipped);
    LeadsOn(setup, s, c, 4, changed, 2 * k, skipped);
    SavingLeads(setup, skipped, c, w);
    LeadsOn(setup, s, c, 4 + 2 * k, skipped, 5, CommittedBy(setup, s, c, w, k));
  }

  lemma SkippingLeads<V>(setup: Setup<V>, s: State<V>, c: nat, v: V, k: nat, t: State<V>)
    requires c in s.phases && s.phases[c] == Changed(v)
    requires var p := setup.calls(c).process;
             && p in s.running && p in s.next && t == s.(next := s.next[p := s.next[p] + k])
             && forall n | s.next[p] <= n < s.next[p] + k :: Temp(setup.pid(p), n) in s.temps
    ensures Leads(setup, s, c, 2 * k, t)
  {
    hide *;
    NamesAreSkipped(setup, s, c, v, k);
  }

  /** And one whose change is a refusal, or that finds what does not parse, leaves everything but its own answer. */
  lemma RefusedCallLeavesAll<V>(setup: Setup<V>, acts: seq<Act>, c: nat)
    requires Possible(setup, acts) && IsFree(setup, After(setup, acts), c)
    requires var found := Found(setup, After(setup, acts)); found.Some? ==> setup.calls(c).change(found.value) == None
    ensures var s, all := After(setup, acts), acts + Turns(c, if Found(setup, After(setup, acts)).Some? then 4 else 3);
            Possible(setup, all) && After(setup, all) == s.(phases := s.phases[c := Done(false)])
  {
    var s := After(setup, acts);
    var last := Told(s, c, Done(false));
    hide Possible, After;
    if Found(setup, s).Some? {
      var v := Found(setup, s).value;
      var loaded := Told(s.(holder := Some(c)), c, Loaded(v));
      ReadingLeads(setup, s, c, v);
      assert Took(setup, loaded, c, true) == last by { assert loaded.phases[c := Done(false)] == s.phases[c := Done(false)]; }
      assert Leads(setup, last, c, 0, last);
      assert Leads(setup, loaded, c, 1, last);
      LeadsOn(setup, s, c, 3, loaded, 1, last);
      LeadsThere(setup, acts, c, 4, last);
    } else {
      var s1 := Told(s, c, Opened);
      var s2 := Told(s.(holder := Some(c)), c, Inside);
      assert Took(setup, s, c, true) == s1;
      assert Took(setup, s1, c, true) == s2 by { assert s1.phases[c := Inside] == s.phases[c := Inside]; }
      assert Took(setup, s2, c, true) == last by { assert s2.phases[c := Done(false)] == s.phases[c := Done(false)]; }
      assert Leads(setup, last, c, 0, last);
      assert Leads(setup, s2, c, 1, last);
      assert Leads(setup, s1, c, 2, last);
      LeadsThere(setup, acts, c, 3, last);
    }
  }

  /** A write that fails, or an install that does, takes its file away and says so, and the lock is given up. */
  lemma FailureTidies<V>(setup: Setup<V>, s: State<V>, c: nat, v: V, temp: Temp)
    requires c in s.phases && (s.phases[c] == Writing(v, temp) || s.phases[c] == Written(v, temp))
    requires setup.calls(c).process in s.running && setup.calls(c).process in s.next
    ensures var failed := Took(setup, s, c, false);
            && c in failed.phases && failed.phases[c] == Failing(temp)
            && failed == s.(phases := s.phases[c := Failing(temp)])
            && Enabled(setup, failed, Turn(c, true))
            && Took(setup, failed, c, true) ==
               s.(temps := s.temps - {temp}, holder := if s.holder == Some(c) then None else s.holder,
                  phases := s.phases[c := Done(false)])
  {
    assert s.phases[c := Failing(temp)][c := Done(false)] == s.phases[c := Done(false)];
  }

  /** A process begins with nothing and counts its names from nought. */
  lemma SpawnBegins<V>(setup: Setup<V>, s: State<V>, p: nat)
    requires Enabled(setup, s, Spawn(p))
    ensures Apply(setup, s, Spawn(p)) == s.(running := s.running + {p}, next := s.next[p := 0])
    ensures p !in s.next
  {
  }

  /** A process that dies leaves the lock to others and its calls where they are, and nothing else is another. */
  lemma CrashFreesTheLock<V>(setup: Setup<V>, s: State<V>, p: nat)
    requires p in s.running
    ensures var t := Apply(setup, s, Crash(p));
            && p !in t.running && t.file == s.file && t.temps == s.temps && t.commits == s.commits && t.next == s.next
            && (forall q | q != p :: q in t.running <==> q in s.running)
            && (t.holder == if s.holder.Some? && setup.calls(s.holder.value).process == p then None else s.holder)
            && t.phases.Keys == s.phases.Keys
            && (forall c | c in s.phases && (setup.calls(c).process != p || s.phases[c].Done?) :: t.phases[c] == s.phases[c])
            && (forall c | c in s.phases && setup.calls(c).process == p && !s.phases[c].Done? :: t.phases[c] == Dead)
  {
  }

  // ----- One call, as it is written -----

  /** What the file system lets one call do: each step of it may fail. */
  datatype Luck = Luck(canLock: bool, canRead: bool, canEncode: bool, canCreate: bool, canWrite: bool, canRename: bool,
      canRemove: bool)

  /** Whether a whole value gets from memory to the path. */
  predicate CanSave(luck: Luck) {
    luck.canCreate && luck.canWrite && luck.canRename
  }

  /** The directory as one process sees it while nobody else moves. */
  class Directory<V(==)> {
    var file: Option<Content<V>>
    var temps: map<Temp, Content<V>>
    var next: nat
    const pid: nat
    const default: V

    constructor (pid: nat, default: V, file: Option<Content<V>>, temps: map<Temp, Content<V>>)
      ensures this.pid == pid && this.default == default
      ensures this.file == file && this.temps == temps && next == 0
    {
      this.pid := pid;
      this.default := default;
      this.file := file;
      this.temps := temps;
      next := 0;
    }

    /** A TOML file read, or the default when there is none yet. */
    method LoadToml(luck: Luck) returns (r: Result<V, ()>)
      ensures r == match file
                   case None => Ok(default)
                   case Some(Whole(v)) => if luck.canRead then Ok(v) else Err(())
                   case Some(Torn) => Err(())
    {
      match file {
        case None => return Ok(default);
        case Some(Whole(v)) => return if luck.canRead then Ok(v) else Err(());
        case Some(Torn) => return Err(());
      }
    }

    /** Names already taken, at the counter or past it: each one costs the loop a turn. */
    function Taken(): set<Temp>
      reads this
    {
      set temp | temp in temps && temp.pid == pid && temp.n >= next
    }

    /** A name nobody has used, however many a process of this pid left behind when it died. */
    method FreshName() returns (temp: Temp)
      modifies this`next
      ensures temp !in temps && temp.pid == pid && old(next) <= temp.n < next
    {
      while true
        invariant old(next) <= next
        decreases Taken()
      {
        ghost var taken := Taken();
        temp := Temp(pid, next);
        next := next + 1;
        if temp !in temps {
          return;
        }
        assert temp in taken && temp !in Taken();
        assert Taken() <= taken;
      }
    }

    /** The whole value or nothing: every way this can fail leaves the file, and every other file, as it was. */
    method WritePrivateFile(value: V, luck: Luck) returns (ok: bool)
      modifies this
      ensures ok == CanSave(luck)
      ensures file == if ok then Some(Whole(value)) else old(file)
      ensures ok || !luck.canCreate || luck.canRemove ==> temps == old(temps)
      ensures forall temp | temp in old(temps) :: temp in temps && temps[temp] == old(temps)[temp]
      ensures old(next) <= next
    {
      var temp := FreshName();
      if !luck.canCreate {
        return false;
      }
      temps := temps[temp := Torn];
      ok := luck.canWrite;
      if ok {
        temps := temps[temp := Whole(value)];
        ok := luck.canRename;
      }
      if ok {
        file := Some(temps[temp]);
        temps := temps - {temp};
      } else if luck.canRemove {
        temps := temps - {temp};
      }
    }

    /** Read under the lock, changed, and put back whole; or the file is what it was. */
    method ChangeToml(change: V -> Option<V>, luck: Luck) returns (ok: bool)
      modifies this
      ensures old(file) == Some(Torn) ==> !ok
      ensures old(file) == None ==>
                && ok == (luck.canLock && change(default).Some? && luck.canEncode
                          && luck.canCreate && luck.canWrite && luck.canRename)
                && (ok ==> file == Some(Whole(change(default).value)))
      ensures old(file).Some? && old(file).value.Whole? ==>
                var changed := change(old(file).value.value);
                && ok == (luck.canLock && luck.canRead && changed.Some? && luck.canEncode
                          && luck.canCreate && luck.canWrite && luck.canRename)
                && (ok ==> file == Some(Whole(changed.value)))
      ensures !ok ==> file == old(file)
    {
      if !luck.canLock {
        return false;
      }
      var value := LoadToml(luck);
      if value.Err? {
        return false;
      }
      var changed := change(value.value);
      if changed.None? || !luck.canEncode {
        return false;
      }
      ok := WritePrivateFile(changed.value, luck);
    }
  }
}
