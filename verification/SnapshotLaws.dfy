/** What a picture of the machines keeps and changes, over src/client/listed.rs:76-140, said row by row. */
module SnapshotLaws {
  import opened Groups
  import opened Lists
  import opened Sessions
  import opened Snapshots
  import opened Wrappers

  // ----- Which session a row is of -----

  /** What no rename changes: the machine under either spelling, the process, and the second it was started in. */
  lemma MembersAreSessions(a: HostedSession, b: HostedSession)
    ensures MemberOfRow(a) == MemberOfRow(b) <==>
            && SameMachine(a.host, b.host) && a.session.pid == b.session.pid
            && (if a.session.started < 0 then 0 else a.session.started) / 1_000_000_000
            == (if b.session.started < 0 then 0 else b.session.started) / 1_000_000_000
  {
  }

  /** Two names are of one machine when they are one name, or both are of this one; a listing gives it one of them. */
  lemma MachinesAreSame(a: string, b: string)
    ensures SameMachine(a, b) <==> a == b || (a in {"local", THIS_MACHINE} && b in {"local", THIS_MACHINE})
    ensures AsListed(a) == if a in {"local", THIS_MACHINE} then THIS_MACHINE else a
  {
  }

  lemma MembersOutliveRenames(row: HostedSession, name: string)
    ensures MemberOfRow(HostedSession(row.host, SessionInfo(name, row.session.pid, row.session.started, row.session.node)))
         == MemberOfRow(row)
  {
  }

  // ----- Renaming and forgetting -----

  /** A row under another name, and the same in everything else. */
  predicate IsNamed(was: HostedSession, now: HostedSession, name: string) {
    now == HostedSession(was.host, SessionInfo(name, was.session.pid, was.session.started, was.session.node))
  }

  /** A rename is of every row at the address, on its machine by either name, and of no other. */
  lemma RenamingIsByAddress(p: Picture, at: Located, name: string)
    ensures var now := Changed(p, RenamedAt(at, name));
            && |now.sessions| == |p.sessions| && |now.cached| == |p.cached| && now.answered == p.answered
            && (forall k | 0 <= k < |p.sessions| ::
                  var row := p.sessions[k];
                  if SameMachine(row.host, at.host) && row.session.name == at.session
                  then IsNamed(row, now.sessions[k], name) else now.sessions[k] == row)
            && (forall k | 0 <= k < |p.cached| ::
                  var row := p.cached[k];
                  if SameMachine(row.host, at.host) && row.session.name == at.session
                  then IsNamed(row, now.cached[k], name) else now.cached[k] == row)
  {
  }

  /** And by what no rename changes, of every row of that session. */
  lemma RenamingIsByMember(p: Picture, member: Member, name: string)
    ensures var now := Changed(p, RenamedOf(member, name));
            && |now.sessions| == |p.sessions| && |now.cached| == |p.cached| && now.answered == p.answered
            && (forall k | 0 <= k < |p.sessions| ::
                  if MemberOfRow(p.sessions[k]) == member
                  then IsNamed(p.sessions[k], now.sessions[k], name) else now.sessions[k] == p.sessions[k])
            && (forall k | 0 <= k < |p.cached| ::
                  if MemberOfRow(p.cached[k]) == member
                  then IsNamed(p.cached[k], now.cached[k], name) else now.cached[k] == p.cached[k])
  {
  }

  /** Forgetting takes out the rows at the address, on its machine by either name, and no other. */
  lemma ForgettingIsByAddress(p: Picture, at: Located, row: HostedSession)
    ensures var now := Forgotten(p, at);
            && now.answered == p.answered
            && (row in now.sessions <==> row in p.sessions && !(SameMachine(row.host, at.host) && row.session.name == at.session))
            && (row in now.cached <==> row in p.cached && !(SameMachine(row.host, at.host) && row.session.name == at.session))
  {
    FilterKeeps(Elsewhere(at), p.sessions);
    FilterKeeps(Elsewhere(at), p.cached);
  }

  // ----- Following -----

  /**
    A row is known after a listing exactly when the listing has it, or it was known
    before, its machine did not answer under any name, and no row of the listing is of
    the same session or at the same address.
   */
  lemma FollowedRows(newer: Picture, previous: Picture, row: HostedSession)
    ensures var now := Following(newer, previous);
            var known := if newer.cached != [] then newer.cached
                         else if previous.cached != [] then previous.cached else previous.sessions;
            && now.sessions == newer.sessions && now.answered == newer.answered
            && (row in now.cached <==>
                  || row in newer.sessions
                  || (&& row in known
                      && (forall host | host in newer.answered :: !SameMachine(host, row.host))
                      && (forall live | live in newer.sessions ::
                            && MemberOfRow(live) != MemberOfRow(row)
                            && !(live.host == row.host && live.session.name == row.session.name))))
  {
    var known := if newer.cached == [] then Known(previous) else newer.cached;
    hide Sort, ByAge, SameMachine, MemberOfRow;
    ByAgeIsTotal();
    var rows := newer.sessions + Filter(Retained(newer), known);
    SortSorts(ByAge(), rows);
    assert row in Sort(ByAge(), rows) <==> row in multiset(rows);
    FilterKeeps(Retained(newer), known);
    RetainedIs(newer, row);
  }

  lemma RetainedIs(newer: Picture, row: HostedSession)
    ensures Retained(newer)(row) <==>
            && (forall host | host in newer.answered :: !SameMachine(host, row.host))
            && (forall live | live in newer.sessions ::
                  MemberOfRow(live) != MemberOfRow(row) && !(live.host == row.host && live.session.name == row.session.name))
  {
    hide SameMachine, MemberOfRow;
    forall host | host in newer.answered && SameMachine(host, row.host) ensures Answers(newer.answered, row.host) {
      var i :| 0 <= i < |newer.answered| && newer.answered[i] == host;
    }
    forall live | live in newer.sessions
        && (MemberOfRow(live) == MemberOfRow(row) || (live.host == row.host && live.session.name == row.session.name))
      ensures IsLive(row, newer.sessions)
    {
      var i :| 0 <= i < |newer.sessions| && newer.sessions[i] == live;
      assert MemberOfRow(newer.sessions[i]) == MemberOfRow(row) || At(newer.sessions[i]) == At(row);
    }
    if Answers(newer.answered, row.host) {
      var i :| 0 <= i < |newer.answered| && SameMachine(newer.answered[i], row.host);
      assert newer.answered[i] in newer.answered;
    }
    if IsLive(row, newer.sessions) {
      var i :| 0 <= i < |newer.sessions|
            && (MemberOfRow(newer.sessions[i]) == MemberOfRow(row) || At(newer.sessions[i]) == At(row));
      assert newer.sessions[i] in newer.sessions;
    }
  }
}
