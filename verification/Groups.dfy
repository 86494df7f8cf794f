/**
  src/client/groups.rs: which sessions are one piece of work. A group is a name
  and a set of sessions; a session is in at most one, and a group that has lost
  its last member is gone.
 */
module Groups {
  import opened Names
  import opened Sessions
  import opened Text
  import opened Wrappers
  import ConfigFile

  /** One session, named the way it will still be named after a rename. */
  datatype Member = Member(host: string, pid: nat, started: nat)

  /** Whole seconds since the epoch, and the epoch for a time before it. */
  function Seconds(nanoseconds: int): nat {
    if nanoseconds < 0 then 0 else nanoseconds / 1_000_000_000
  }

  function MemberOf(host: string, session: SessionInfo): Member {
    Member(AsListed(host), session.pid, Seconds(session.started))
  }

  function MemberOfRow(row: HostedSession): Member {
    MemberOf(row.host, row.session)
  }

  /** What the file holds. */
  type Table = map<string, set<Member>>

  predicate In(g: Table, name: string, m: Member) {
    name in g && m in g[name]
  }

  ghost predicate AtMostOneGroup(g: Table) {
    forall a, b, m | In(g, a, m) && In(g, b, m) :: a == b
  }

  predicate NoneEmpty(g: Table) {
    forall name | name in g :: g[name] != {}
  }

  ghost predicate Valid(g: Table) {
    AtMostOneGroup(g) && NoneEmpty(g)
  }

  /** A table with no empty group is its memberships and nothing more. */
  lemma MembershipsAreAll(a: Table, b: Table)
    requires NoneEmpty(a) && NoneEmpty(b)
    requires forall name, m :: In(a, name, m) <==> In(b, name, m)
    ensures a == b
  {
    forall name | name in a ensures name in b {
      var m :| m in a[name];
      assert In(b, name, m);
    }
    forall name | name in b ensures name in a {
      var m :| m in b[name];
      assert In(a, name, m);
    }
    forall name | name in a ensures a[name] == b[name] {
      forall m ensures m in a[name] <==> m in b[name] {
        assert In(a, name, m) <==> In(b, name, m);
      }
    }
  }

  // ----- Names -----

  function WithoutSigil(s: string): string {
    if s != "" && s[0] == '@' then s[1..] else s
  }

  /** The name a typed one ends up as. */
  function Canonical(typed: string): string {
    Trim(WithoutSigil(Trim(typed)))
  }

  predicate Accepted(name: string) {
    name != "" && '/' !in name
  }

  /** Spelled as headings and targets spell it, an accepted name comes back as itself. */
  lemma SpelledNameComesBack(typed: string)
    ensures Canonical("@" + Canonical(typed)) == Canonical(typed)
  {
    var name := Canonical(typed);
    var spelled := "@" + name;
    assert Trimmed(spelled) by {
      if name != "" { assert spelled[|spelled| - 1] == name[|name| - 1]; }
    }
    assert spelled[1..] == name;
  }

  /** A sigil typed after the one that is taken off, before anything else but white space. */
  predicate TypedTwice(typed: string) {
    Leads('@', WithoutSigil(TrimStart(typed)))
  }

  lemma LeadsWithSigil(typed: string)
    ensures Canonical(typed) != "" && Canonical(typed)[0] == '@' <==> TypedTwice(typed)
  {
    var start, typedEnd := TrimStart(typed), TrimEnd(TrimStart(typed));
    if start != "" {
      assert typedEnd != "" && typedEnd[0] == start[0] by { TrimEndKeeps(start, start[0]); }
    }
    var rest, inner := WithoutSigil(start), WithoutSigil(typedEnd);
    if start != "" && start[0] == '@' {
      TrimEndOfRest(start);
    }
    TrimEndLeads('@', rest);
    TrimEndLeads('@', inner);
    assert Leads('@', inner) <==> Leads('@', rest);
    var led := TrimStart(inner);
    if led != "" { TrimEndKeeps(led, led[0]); }
  }

  /** Past a character that is not white, trimming the end is trimming what follows. */
  lemma TrimEndOfRest(s: string)
    requires s != "" && !IsWhite(s[0])
    ensures TrimEnd(s) != "" && TrimEnd(s)[1..] == TrimEnd(s[1..])
    decreases |s|
  {
    if IsWhite(s[|s| - 1]) {
      TrimEndOfRest(s[..|s| - 1]);
      assert s[..|s| - 1][1..] == s[1..][..|s| - 2];
    }
  }

  /** Spelled bare it does too, exactly when no second sigil was typed: only one is taken off. */
  lemma BareNameComesBack(typed: string)
    ensures Canonical(Canonical(typed)) == Canonical(typed) <==> !TypedTwice(typed)
  {
    var name := Canonical(typed);
    LeadsWithSigil(typed);
    if name != "" && name[0] == '@' {
      ShorterWithoutSigil(name);
    }
  }

  lemma ShorterWithoutSigil(s: string)
    requires Trimmed(s) && s != "" && s[0] == '@'
    ensures |Canonical(s)| < |s|
  {
  }

  /**
    The code's own account of itself says no name can hold the sigil. One does
    exactly when a sigil was typed anywhere but at the very front.
   */
  lemma SigilStaysExactlyWhen(typed: string)
    ensures '@' in Canonical(typed) <==> '@' in WithoutSigil(Trim(typed))
    ensures '@' in Canonical(typed) <==> '@' in WithoutSigil(TrimStart(typed))
  {
    TrimKeeps(WithoutSigil(Trim(typed)), '@');
    var start := TrimStart(typed);
    if start != "" {
      TrimEndKeeps(start, start[0]);
      if start[0] == '@' {
        TrimEndOfRest(start);
        TrimEndKeeps(start[1..], '@');
      } else {
        TrimEndKeeps(start, '@');
      }
    }
  }

  /**
    What is typed is refused exactly when it holds a slash, or nothing but white space
    once a sigil at its front is taken off.
   */
  lemma RefusedExactlyWhen(g: Table, typed: string, m: Member)
    ensures PutIn(g, typed, m) == None <==>
            '/' in typed || forall c | c in WithoutSigil(Trim(typed)) :: IsWhite(c)
  {
    hide Joined, Trim, IsWhite;
    var rest := WithoutSigil(Trim(typed));
    assert !IsWhite('/') by { SlashIsNotWhite(); }
    TrimKeeps(typed, '/');
    TrimKeeps(rest, '/');
    assert Trim(typed) != "" ==> Trim(typed) == [Trim(typed)[0]] + Trim(typed)[1..];
    forall c | c in rest && !IsWhite(c) ensures Canonical(typed) != "" { TrimKeeps(rest, c); }
    if Canonical(typed) != "" {
      TrimmedIsNotWhite(rest);
      TrimKeeps(rest, Canonical(typed)[0]);
    }
  }

  lemma SlashIsNotWhite()
    ensures !IsWhite('/')
  {
  }

  lemma TrimmedIsNotWhite(s: string)
    ensures Trim(s) != "" ==> !IsWhite(Trim(s)[0])
  {
    assert Trimmed(Trim(s));
  }

  /** As in these, two of which are accepted all the same. */
  lemma SigilCanStay()
    ensures Accepted(Canonical("@@pi")) && Canonical("@@pi") == "@pi"
    ensures Accepted(Canonical("a@b")) && Canonical("a@b") == "a@b"
    ensures Canonical("@pi") == "pi"
  {
    hide Trim;
    assert "@@pi"[1..] == "@pi" && "@pi"[1..] == "pi";
  }

  // ----- What can be done to a table -----

  /** A member taken out of every group. */
  function Cleared(g: Table, m: Member): Table {
    map name | name in g && g[name] - {m} != {} :: g[name] - {m}
  }

  /** And put in one. */
  function Joined(g: Table, name: string, m: Member): Table {
    var cleared := Cleared(g, m);
    cleared[name := (if name in cleared then cleared[name] else {}) + {m}]
  }

  /** What is left of one group of the current file, of a copy read earlier and a listing that came since. */
  function Surviving(held: set<Member>, before: Table, name: string, reached: seq<string>, listing: seq<HostedSession>): set<Member> {
    set m | m in held && !(In(before, name, m) && Departed(m, reached, listing))
  }

  function Merged(g: Table, before: Table, reached: seq<string>, listing: seq<HostedSession>): Table {
    map name | name in g && Surviving(g[name], before, name, reached, listing) != {} ::
      Surviving(g[name], before, name, reached, listing)
  }

  /** What a client does to the file, and so what a change made under its lock is. */
  datatype Edit =
    | Put(group: string, member: Member)
    | Move(to: Option<string>, member: Member)
    | TakeOut(member: Member)
    | Merge(before: Table, reached: seq<string>, listing: seq<HostedSession>)

  function PutIn(g: Table, group: string, m: Member): Option<Table> {
    if Accepted(Canonical(group)) then Some(Joined(g, Canonical(group), m)) else None
  }

  function Edited(edit: Edit): Table -> Option<Table> {
    (g: Table) =>
      match edit
      case Put(group, m) => PutIn(g, group, m)
      case Move(Some(group), m) => PutIn(g, group, m)
      case Move(None, m) => Some(Cleared(g, m))
      case TakeOut(m) => Some(Cleared(g, m))
      case Merge(before, reached, listing) => Some(Merged(g, before, reached, listing))
  }

  lemma ClearedMembers(g: Table, m: Member)
    ensures NoneEmpty(Cleared(g, m))
    ensures forall name, n :: In(Cleared(g, m), name, n) <==> In(g, name, n) && n != m
    ensures AtMostOneGroup(g) ==> Valid(Cleared(g, m))
  {
    forall name, n ensures In(Cleared(g, m), name, n) <==> In(g, name, n) && n != m {
      if In(g, name, n) && n != m { assert n in g[name] - {m}; }
    }
  }

  lemma JoinedMembers(g: Table, name: string, m: Member)
    ensures NoneEmpty(Joined(g, name, m))
    ensures forall other, n :: In(Joined(g, name, m), other, n) <==> if n == m then other == name else In(g, other, n)
    ensures AtMostOneGroup(g) ==> Valid(Joined(g, name, m))
  {
    hide Cleared;
    ClearedMembers(g, m);
    forall other, n ensures In(Joined(g, name, m), other, n) <==> if n == m then other == name else In(g, other, n) {
      assert In(Cleared(g, m), other, n) <==> In(g, other, n) && n != m;
    }
  }

  lemma MergedMembers(g: Table, before: Table, reached: seq<string>, listing: seq<HostedSession>)
    ensures Refreshes(g, Merged(g, before, reached, listing), before, reached, listing)
    ensures AtMostOneGroup(g) ==> Valid(Merged(g, before, reached, listing))
  {
    hide Departed;
    var after := Merged(g, before, reached, listing);
    forall name, m ensures In(after, name, m) <==> In(g, name, m) && !(In(before, name, m) && Departed(m, reached, listing)) {
      if name in g {
        assert m in Surviving(g[name], before, name, reached, listing) <==>
          m in g[name] && !(In(before, name, m) && Departed(m, reached, listing));
      }
    }
  }

  /** Every edit there is keeps a valid table valid. */
  lemma EditsKeepValid(edit: Edit, g: Table)
    requires Valid(g) && Edited(edit)(g).Some?
    ensures Valid(Edited(edit)(g).value)
  {
    hide Cleared, Joined, Merged, Canonical;
    match edit
    case Put(group, m) => JoinedMembers(g, Canonical(group), m);
    case Move(to, m) =>
      ClearedMembers(g, m);
      if to.Some? { JoinedMembers(g, Canonical(to.value), m); }
    case TakeOut(m) => ClearedMembers(g, m);
    case Merge(before, reached, listing) => MergedMembers(g, before, reached, listing);
  }

  /** And does what it is for: to the member it is about, and to no other. */
  lemma EditsMean(edit: Edit, g: Table, name: string, n: Member)
    requires Edited(edit)(g).Some?
    ensures var now := Edited(edit)(g).value;
            match edit
            case Put(group, m) => In(now, name, n) <==> if n == m then name == Canonical(group) else In(g, name, n)
            case Move(Some(group), m) => In(now, name, n) <==> if n == m then name == Canonical(group) else In(g, name, n)
            case Move(None, m) => In(now, name, n) <==> In(g, name, n) && n != m
            case TakeOut(m) => In(now, name, n) <==> In(g, name, n) && n != m
            case Merge(before, reached, listing) =>
              In(now, name, n) <==> In(g, name, n) && !(In(before, name, n) && Departed(n, reached, listing))
  {
    hide Cleared, Joined, Merged, Canonical, Departed, In;
    match edit
    case Put(group, m) => JoinedMembers(g, Canonical(group), m);
    case Move(to, m) =>
      ClearedMembers(g, m);
      if to.Some? { JoinedMembers(g, Canonical(to.value), m); }
    case TakeOut(m) => ClearedMembers(g, m);
    case Merge(before, reached, listing) => MergedMembers(g, before, reached, listing);
  }

  // ----- The copy in hand -----

  class Groups {
    var groups: Table

    constructor (groups: Table)
      ensures this.groups == groups
    {
      this.groups := groups;
    }

    method ForgetTheEmpty()
      modifies this
      ensures NoneEmpty(groups)
      ensures forall name, m :: In(groups, name, m) <==> In(old(groups), name, m)
    {
      groups := map name | name in groups && groups[name] != {} :: groups[name];
    }

    method Clear(host: string, session: SessionInfo)
      modifies this
      ensures Edited(TakeOut(MemberOf(host, session)))(old(groups)) == Some(groups)
      ensures NoneEmpty(groups)
      ensures forall name, m :: In(groups, name, m) <==> In(old(groups), name, m) && m != MemberOf(host, session)
      ensures old(AtMostOneGroup(groups)) ==> Valid(groups)
    {
      var member := MemberOf(host, session);
      var names := groups.Keys;
      while names != {}
        invariant names <= groups.Keys == old(groups).Keys
        invariant forall name | name in groups ::
                    groups[name] == if name in names then old(groups)[name] else old(groups)[name] - {member}
        decreases names
      {
        var name :| name in names;
        groups := groups[name := groups[name] - {member}];
        names := names - {name};
      }
      ForgetTheEmpty();
      ClearedMembers(old(groups), member);
      MembershipsAreAll(groups, Cleared(old(groups), member));
    }

    /** Into one group and out of any other, under the name that stuck; or refused and nothing moved. */
    method Assign(group: string, host: string, session: SessionInfo) returns (r: Result<string, string>)
      modifies this
      ensures r.Ok? <==> Accepted(Canonical(group))
      ensures r.Err? ==> groups == old(groups)
      ensures Edited(Put(group, MemberOf(host, session)))(old(groups)) == if r.Ok? then Some(groups) else None
      ensures r.Ok? ==>
                && r.value == Canonical(group)
                && NoneEmpty(groups)
                && (forall name, m :: In(groups, name, m) <==>
                      if m == MemberOf(host, session) then name == r.value else In(old(groups), name, m))
                && (old(AtMostOneGroup(groups)) ==> Valid(groups))
    {
      var name := Trim(WithoutSigil(Trim(group)));
      assert name == Canonical(group);
      if name == "" {
        return Err("a group needs a name");
      }
      if '/' in name {
        return Err("a group name cannot hold a `/`");
      }
      hide Canonical, Trim, MemberOf;
      Clear(host, session);
      ghost var cleared := groups;
      var held := if name in groups then groups[name] else {};
      groups := groups[name := held + {MemberOf(host, session)}];
      assert forall other, m :: In(groups, other, m) <==>
        In(cleared, other, m) || (other == name && m == MemberOf(host, session));
      JoinedMembers(old(groups), name, MemberOf(host, session));
      MembershipsAreAll(groups, Joined(old(groups), name, MemberOf(host, session)));
      return Ok(name);
    }

    /** A group to be in, or none. */
    method Set(group: Option<string>, host: string, session: SessionInfo) returns (r: Result<(), string>)
      modifies this
      ensures r.Ok? <==> (group.Some? ==> Accepted(Canonical(group.value)))
      ensures r.Err? ==> groups == old(groups)
      ensures Edited(Move(group, MemberOf(host, session)))(old(groups)) == if r.Ok? then Some(groups) else None
      ensures r.Ok? ==>
                && NoneEmpty(groups)
                && (forall name, m :: In(groups, name, m) <==>
                      if m == MemberOf(host, session) then group.Some? && name == Canonical(group.value)
                      else In(old(groups), name, m))
                && (old(AtMostOneGroup(groups)) ==> Valid(groups))
    {
      match group {
        case Some(name) =>
          var named := Assign(name, host, session);
          if named.Err? {
            return Err(named.error);
          }
        case None => Clear(host, session);
      }
      return Ok(());
    }

    /** Members that are gone dropped, going by hosts that answered and no others. */
    method Prune(reached: seq<string>, listing: seq<HostedSession>)
      modifies this
      ensures NoneEmpty(groups)
      ensures forall name, m :: In(groups, name, m) <==> In(old(groups), name, m) && !Departed(m, reached, listing)
    {
      var live := set i | 0 <= i < |listing| :: MemberOfRow(listing[i]);
      assert forall m :: m in live <==> Listed(m, listing);
      var names := groups.Keys;
      while names != {}
        invariant names <= groups.Keys == old(groups).Keys
        invariant forall name | name in groups ::
                    groups[name] == if name in names then old(groups)[name]
                                    else set m | m in old(groups)[name] && !Departed(m, reached, listing)
        decreases names
      {
        var name :| name in names;
        groups := groups[name := set m | m in groups[name] && (m.host !in reached || m in live)];
        names := names - {name};
      }
      ForgetTheEmpty();
    }

    /**
      A listing that may have been a long time coming, merged into the file as it
      is now: `onDisk` is what is read once the lock is held, and what is written
      back is what this copy ends up holding.
     */
    method RefreshAt(onDisk: Table, before: Table, reached: seq<string>, listing: seq<HostedSession>)
      modifies this
      ensures Edited(Merge(before, reached, listing))(onDisk) == Some(groups)
      ensures Refreshes(onDisk, groups, before, reached, listing)
      ensures AtMostOneGroup(onDisk) ==> Valid(groups)
    {
      hide Merged, Departed, Surviving, In;
      var survivors := new Groups(before);
      survivors.Prune(reached, listing);
      ghost var kept := survivors.groups;
      groups := onDisk;
      var names := before.Keys;
      while names != {}
        invariant names <= before.Keys && groups.Keys == onDisk.Keys && survivors.groups == kept
        invariant forall name | name in groups ::
                    groups[name] == if name !in before || name in names then onDisk[name]
                                    else Surviving(onDisk[name], before, name, reached, listing)
        decreases names
      {
        var name :| name in names;
        if name in groups {
          var previous := before[name];
          SurvivorsOf(groups[name], before, name, kept, reached, listing);
          groups := groups[name := set m | m in groups[name] && (m !in previous || In(survivors.groups, name, m))];
        }
        names := names - {name};
      }
      ghost var left := groups;
      ForgetTheEmpty();
      WhatIsLeft(left, onDisk, before, reached, listing);
      MergedMembers(onDisk, before, reached, listing);
      MembershipsAreAll(groups, Merged(onDisk, before, reached, listing));
    }
  }

  lemma SurvivorsOf(held: set<Member>, before: Table, name: string, kept: Table, reached: seq<string>,
          listing: seq<HostedSession>)
    requires name in before
    requires forall m :: In(kept, name, m) <==> In(before, name, m) && !Departed(m, reached, listing)
    ensures (set m | m in held && (m !in before[name] || In(kept, name, m)))
         == Surviving(held, before, name, reached, listing)
  {
    hide Departed;
  }

  lemma WhatIsLeft(left: Table, onDisk: Table, before: Table, reached: seq<string>, listing: seq<HostedSession>)
    requires left.Keys == onDisk.Keys
    requires forall name | name in left ::
               left[name] == if name !in before then onDisk[name] else Surviving(onDisk[name], before, name, reached, listing)
    ensures forall name, m :: In(left, name, m) <==> In(Merged(onDisk, before, reached, listing), name, m)
  {
    hide Departed, Merged;
    MergedMembers(onDisk, before, reached, listing);
  }

  // ----- Departures -----

  predicate Listed(m: Member, listing: seq<HostedSession>) {
    exists i | 0 <= i < |listing| :: MemberOfRow(listing[i]) == m
  }

  /** Its host answered, and did not mention it. */
  predicate Departed(m: Member, reached: seq<string>, listing: seq<HostedSession>) {
    m.host in reached && !Listed(m, listing)
  }

  /** A member has gone when its host is among those that answered and no row listed is of it, and only then. */
  lemma DepartedExactlyWhen(m: Member, reached: seq<string>, listing: seq<HostedSession>)
    ensures Departed(m, reached, listing) <==> m.host in reached && forall row | row in listing :: MemberOfRow(row) != m
  {
    hide MemberOfRow;
    if row :| row in listing && MemberOfRow(row) == m {
      var i :| 0 <= i < |listing| && listing[i] == row;
      assert MemberOfRow(listing[i]) == m;
    }
    if i :| 0 <= i < |listing| && MemberOfRow(listing[i]) == m { assert listing[i] in listing; }
  }

  /** A refresh takes out a membership exactly when it was there before the hosts were asked and has departed since. */
  ghost predicate Refreshes(current: Table, after: Table, before: Table, reached: seq<string>,
          listing: seq<HostedSession>) {
    && NoneEmpty(after)
    && forall name, m ::
         In(after, name, m) <==> In(current, name, m) && !(In(before, name, m) && Departed(m, reached, listing))
  }

  /** Edits one after another; one that is refused leaves the table as it was. */
  function AfterEdits(g: Table, edits: seq<Edit>): Table {
    if edits == [] then g
    else
      var now := AfterEdits(g, edits[..|edits| - 1]);
      match Edited(edits[|edits| - 1])(now)
      case Some(next) => next
      case None => now
  }

  /** An edit about other members, or a listing this one has not gone from. */
  predicate LeavesAlone(edit: Edit, m: Member) {
    match edit
    case Put(_, n) => n != m
    case Move(_, n) => n != m
    case TakeOut(n) => n != m
    case Merge(_, reached, listing) => !Departed(m, reached, listing)
  }

  lemma {:induction false} LeftAlone(g: Table, edits: seq<Edit>, m: Member)
    requires forall i | 0 <= i < |edits| :: LeavesAlone(edits[i], m)
    ensures forall name :: In(AfterEdits(g, edits), name, m) <==> In(g, name, m)
    decreases |edits|
  {
    if edits != [] {
      hide Cleared, Joined, Merged, Canonical, Departed, In, LeavesAlone;
      var now, edit := AfterEdits(g, edits[..|edits| - 1]), edits[|edits| - 1];
      LeftAlone(g, edits[..|edits| - 1], m);
      assert LeavesAlone(edit, m);
      EditLeavesAlone(now, edit, m);
    }
  }

  lemma EditLeavesAlone(now: Table, edit: Edit, m: Member)
    requires LeavesAlone(edit, m)
    ensures Edited(edit)(now).Some? ==> forall name :: In(Edited(edit)(now).value, name, m) <==> In(now, name, m)
  {
    hide Cleared, Joined, Merged, Canonical, Departed, In;
    match edit
    case Put(group, n) => JoinedMembers(now, Canonical(group), n);
    case Move(to, n) =>
      ClearedMembers(now, n);
      if to.Some? { JoinedMembers(now, Canonical(to.value), n); }
    case TakeOut(n) => ClearedMembers(now, n);
    case Merge(before, reached, listing) => MergedMembers(now, before, reached, listing);
  }

  /**
    A move made while a listing was out survives it, however late it lands: whatever
    was done since the copy was read, a member last put in one group is in that one
    alone once the listing is merged, unless it was in it in the copy and has gone.
   */
  lemma LateMovesSurvive(before: Table, early: seq<Edit>, typed: string, m: Member, late: seq<Edit>,
          reached: seq<string>, listing: seq<HostedSession>, name: string)
    requires Accepted(Canonical(typed)) && forall i | 0 <= i < |late| :: LeavesAlone(late[i], m)
    ensures var current := AfterEdits(AfterEdits(before, early + [Put(typed, m)]), late);
            In(Merged(current, before, reached, listing), name, m) <==>
              name == Canonical(typed) && !(In(before, name, m) && Departed(m, reached, listing))
  {
    hide Cleared, Joined, Merged, Canonical, Departed, In;
    assert (early + [Put(typed, m)])[..|early|] == early;
    var put := AfterEdits(before, early + [Put(typed, m)]);
    JoinedMembers(AfterEdits(before, early), Canonical(typed), m);
    LeftAlone(put, late, m);
    MergedMembers(AfterEdits(put, late), before, reached, listing);
  }

  /** Pruning the file as it is now, as though nothing had moved, agrees exactly when nothing new has departed. */
  lemma PruneAgreesWhenNothingMoved(current: Table, after: Table, before: Table, reached: seq<string>,
          listing: seq<HostedSession>, pruned: Table)
    requires Refreshes(current, after, before, reached, listing)
    requires NoneEmpty(pruned)
    requires forall name, m :: In(pruned, name, m) <==> In(current, name, m) && !Departed(m, reached, listing)
    ensures after == pruned <==> forall name, m :: In(current, name, m) && Departed(m, reached, listing) ==> In(before, name, m)
  {
    if forall name, m :: In(current, name, m) && Departed(m, reached, listing) ==> In(before, name, m) {
      MembershipsAreAll(after, pruned);
    }
    if after == pruned {
      forall name, m | In(current, name, m) && Departed(m, reached, listing) ensures In(before, name, m) {
        assert !In(pruned, name, m);
      }
    }
  }

  /** Refreshing again from the same answers changes nothing: what a listing could prune, it has. */
  lemma RefreshingTwiceIsOnce(current: Table, once: Table, twice: Table, before: Table, reached: seq<string>,
          listing: seq<HostedSession>)
    requires Refreshes(current, once, before, reached, listing)
    requires Refreshes(once, twice, before, reached, listing)
    ensures twice == once
  {
    MembershipsAreAll(twice, once);
  }

  // ----- Looking a session up -----

  /** The first group holding a member, in the order of their names. */
  function GroupOf(g: Table, m: Member): (r: Option<string>)
    ensures r.Some? ==> In(g, r.value, m) && forall name | In(g, name, m) :: AtMost(r.value, name)
    ensures r.None? ==> forall name :: !In(g, name, m)
  {
    var holding := set name | name in g && m in g[name];
    if holding == {} then
      assert forall name | In(g, name, m) :: name in holding;
      None
    else
      var least := LeastOf(holding);
      Some(least)
  }

  /** In a valid table there is nothing first about it: the group found is the group it is in. */
  lemma GroupOfIsTheGroup(g: Table, m: Member, name: string)
    requires Valid(g)
    ensures GroupOf(g, m) == Some(name) <==> In(g, name, m)
  {
  }

  // ----- Over a whole file's life -----

  /** Calls that each make one of those edits to the file, and take its lock to do it. */
  ghost predicate MakesEdits(setup: ConfigFile.Setup<Table>, edits: nat -> Edit) {
    ConfigFile.AllLock(setup) && forall c: nat :: setup.calls(c).change == Edited(edits(c))
  }

  /** A file that is not there yet, or holds a valid table; there is no group by default. */
  ghost predicate BeginsValid(setup: ConfigFile.Setup<Table>) {
    setup.default == map[] && (setup.initial.Some? ==> setup.initial.value.Whole? && Valid(setup.initial.value.value))
  }

  /** Whatever clients do and however they interleave, fail and die, the file on disk is a valid table. */
  lemma FileStaysValid(setup: ConfigFile.Setup<Table>, edits: nat -> Edit, acts: seq<ConfigFile.Act>)
    requires MakesEdits(setup, edits) && BeginsValid(setup) && ConfigFile.Possible(setup, acts)
    ensures var file := ConfigFile.After(setup, acts).file;
            file.None? || (file.value.Whole? && Valid(file.value.value))
  {
    ConfigFile.NoUpdateIsLost(setup, acts);
    FoldStaysValid(setup, edits, ConfigFile.After(setup, acts).commits);
  }

  lemma {:induction false} FoldStaysValid(setup: ConfigFile.Setup<Table>, edits: nat -> Edit, commits: seq<nat>)
    requires MakesEdits(setup, edits) && BeginsValid(setup)
    ensures Valid(ConfigFile.Fold(setup, commits))
    decreases |commits|
  {
    if commits != [] {
      hide Edited;
      FoldStaysValid(setup, edits, commits[..|commits| - 1]);
      var c, now := commits[|commits| - 1], ConfigFile.Fold(setup, commits[..|commits| - 1]);
      assert setup.calls(c).change == Edited(edits(c));
      if Edited(edits(c))(now).Some? { EditsKeepValid(edits(c), now); }
    }
  }
}
