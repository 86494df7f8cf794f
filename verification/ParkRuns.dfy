/** That visits can be made at all, one after another, over src/client/mod.rs:655-741 and src/node/mod.rs:335-400. */
module ParkRuns {
  import opened Bytes
  import opened Park

  /** Some acts, one after another, lead from one state to another. */
  ghost predicate Leads(s: State, acts: seq<Act>, t: State)
    decreases |acts|
  {
    if acts == [] then s == t else Enabled(s, acts[0]) && Leads(Apply(s, acts[0]), acts[1..], t)
  }

  lemma {:induction false} LeadsOn(s: State, a: seq<Act>, t: State, b: seq<Act>, u: State)
    requires Leads(s, a, t) && Leads(t, b, u)
    ensures Leads(s, a + b, u)
    decreases |a|
  {
    hide Enabled, Apply;
    if a == [] {
      assert a + b == b;
    } else {
      LeadsOn(Apply(s, a[0]), a[1..], t, b, u);
      assert (a + b)[1..] == a[1..] + b;
    }
  }

  lemma OneAct(s: State, act: Act)
    requires Enabled(s, act)
    ensures Leads(s, [act], Apply(s, act))
  {
    assert [act][1..] == [];
    assert Leads(Apply(s, act), [], Apply(s, act));
  }

  lemma {:induction false} LeadsThere(acts: seq<Act>, more: seq<Act>, t: State)
    requires Possible(acts) && Leads(After(acts), more, t)
    ensures Possible(acts + more) && After(acts + more) == t
    decreases |more|
  {
    hide Enabled, Apply;
    if more == [] {
      assert acts + more == acts;
    } else {
      var one := acts + [more[0]];
      assert one[..|one| - 1] == acts && one[|one| - 1] == more[0];
      LeadsThere(one, more[1..], t);
      assert acts + more == one + more[1..];
    }
  }

  /** Attached and served, with both pipes empty. */
  predicate Settled(s: State, k: nat) {
    && s.client == Attached(k) && s.node == Serving(k) && s.read == |s.wrote| && s.heard == |s.sent|
    && |s.readers| == |s.starts| == |s.answers| == k + 1 && !s.confused
  }

  // ----- One attachment -----

  /** What is typed gets to the node, and what is shown gets to this attachment's reader. */
  function TypeAndShow(typed: Byte, shown: Byte): seq<Act> {
    [Type(typed), Hear(true), Emit(shown), Take]
  }

  lemma TypingAndShowing(s: State, k: nat, typed: Byte, shown: Byte)
    requires Settled(s, k) && typed !in {REQUEST, PARK, DETACH} && shown != PARK
    ensures var t := s.(sent := s.sent + [Frame(typed, true, k, Body)], heard := s.heard + 1,
                        wrote := s.wrote + [Frame(shown, true, k, Body)], read := s.read + 1,
                        readers := s.readers[k := s.readers[k] + [Frame(shown, true, k, Body)]]);
            Leads(s, TypeAndShow(typed, shown), t) && Settled(t, k)
  {
    var acts := TypeAndShow(typed, shown);
    var s1 := Apply(s, acts[0]);
    var s2 := Apply(s1, acts[1]);
    var s3 := Apply(s2, acts[2]);
    var s4 := Apply(s3, acts[3]);
    hide Apply, Leads;
    Nothing(s, acts);
    Further(s, acts, 0, s);
    Further(s, acts, 1, s1);
    Further(s, acts, 2, s2);
    Further(s, acts, 3, s3);
    assert acts[..|acts|] == acts;
  }

  lemma Nothing(s: State, acts: seq<Act>)
    ensures Leads(s, acts[..0], s)
  {
  }

  lemma Further(s: State, acts: seq<Act>, n: nat, t: State)
    requires n < |acts| && Leads(s, acts[..n], t) && Enabled(t, acts[n])
    ensures Leads(s, acts[..n + 1], Apply(t, acts[n]))
  {
    OneAct(t, acts[n]);
    LeadsOn(s, acts[..n], t, [acts[n]], Apply(t, acts[n]));
    assert acts[..n] + [acts[n]] == acts[..n + 1];
  }

  // ----- From one attachment to the next -----

  /** Leaving and asking at once: the new request is behind the fence before the node has seen either. */
  function LeaveAndAsk(late: Byte): seq<Act> {
    [Leave, Emit(late), Ask, Hear(true), Fence, Hear(true), Take, Take, Take]
  }

  function Hopped(s: State, k: nat, late: seq<Frame>): State {
    var asked := [Frame(PARK, true, k, Closing), Frame(REQUEST, true, k + 1, Opening)];
    var answered := [Frame(PARK, true, k, Closing), Frame(RESPONSE, true, k + 1, Opening)];
    State(Attached(k + 1), Serving(k + 1), s.sent + asked, s.heard + 2, s.wrote + late + answered, s.read + |late| + 2,
          s.readers + [[]], s.starts + [s.read + |late| + 2], s.answers + [answered[1]], s.confused)
  }

  /** What the node wrote too late is drained, and the next attachment is the one asked for. */
  lemma LeavingAndAsking(s: State, k: nat, late: Byte)
    requires Settled(s, k) && late != PARK
    ensures Leads(s, LeaveAndAsk(late), Hopped(s, k, [Frame(late, true, k, Body)]))
  {
    FirstHalf(s, k, late);
    SecondHalf(s, k, late);
    hide *;
    LeadsOn(s, LeaveAndAsk(late)[..5], Left(s, k, late), LeaveAndAsk(late)[5..], Hopped(s, k, [Frame(late, true, k, Body)]));
    assert LeaveAndAsk(late)[..5] + LeaveAndAsk(late)[5..] == LeaveAndAsk(late);
  }

  /** The node has written its fence and the client has asked again; the rest is on its way. */
  function Left(s: State, k: nat, late: Byte): State {
    s.(client := Draining(k, true), node := Idle,
       sent := s.sent + [Frame(PARK, true, k, Closing), Frame(REQUEST, true, k + 1, Opening)], heard := s.heard + 1,
       wrote := s.wrote + [Frame(late, true, k, Body), Frame(PARK, true, k, Closing)])
  }

  lemma FirstHalf(s: State, k: nat, late: Byte)
    requires Settled(s, k) && late != PARK
    ensures Leads(s, LeaveAndAsk(late)[..5], Left(s, k, late))
  {
    var acts := LeaveAndAsk(late);
    var s1 := Apply(s, acts[0]);
    var s2 := Apply(s1, acts[1]);
    var s3 := Apply(s2, acts[2]);
    var s4 := Apply(s3, acts[3]);
    var s5 := Apply(s4, acts[4]);
    assert s5 == Left(s, k, late);
    hide Apply, Leads;
    Nothing(s, acts);
    Further(s, acts, 0, s);
    Further(s, acts, 1, s1);
    Further(s, acts, 2, s2);
    Further(s, acts, 3, s3);
    Further(s, acts, 4, s4);
  }

  lemma SecondHalf(s: State, k: nat, late: Byte)
    requires Settled(s, k) && late != PARK
    ensures Leads(Left(s, k, late), LeaveAndAsk(late)[5..], Hopped(s, k, [Frame(late, true, k, Body)]))
  {
    var acts := LeaveAndAsk(late)[5..];
    assert acts == [Hear(true), Take, Take, Take];
    var t := Left(s, k, late);
    var s1 := Apply(t, acts[0]);
    var s2 := Apply(s1, acts[1]);
    var s3 := Apply(s2, acts[2]);
    var s4 := Apply(s3, acts[3]);
    assert s4 == Hopped(s, k, [Frame(late, true, k, Body)]);
    hide Apply, Leads, Left, Hopped;
    Nothing(t, acts);
    Further(t, acts, 0, t);
    Further(t, acts, 1, s1);
    Further(t, acts, 2, s2);
    Further(t, acts, 3, s3);
    assert acts[..|acts|] == acts;
  }

  /** Or the fence is waited for first, and the request made after it. */
  function LeaveThenAsk(): seq<Act> {
    [Leave, Hear(true), Fence, Take, Ask, Hear(true), Take]
  }

  /** The fence has been seen, and nothing is asked for yet. */
  function Fenced(s: State, k: nat): State {
    s.(client := Ready(k), node := Idle,
       sent := s.sent + [Frame(PARK, true, k, Closing)], heard := s.heard + 1,
       wrote := s.wrote + [Frame(PARK, true, k, Closing)], read := s.read + 1)
  }

  lemma LeavingFirst(s: State, k: nat)
    requires Settled(s, k)
    ensures Leads(s, LeaveThenAsk()[..4], Fenced(s, k))
  {
    var acts := LeaveThenAsk();
    var s1 := Apply(s, acts[0]);
    var s2 := Apply(s1, acts[1]);
    var s3 := Apply(s2, acts[2]);
    var s4 := Apply(s3, acts[3]);
    assert s4 == Fenced(s, k);
    hide Apply, Leads;
    Nothing(s, acts);
    Further(s, acts, 0, s);
    Further(s, acts, 1, s1);
    Further(s, acts, 2, s2);
    Further(s, acts, 3, s3);
  }

  lemma AskingThen(s: State, k: nat)
    requires Settled(s, k)
    ensures Leads(Fenced(s, k), LeaveThenAsk()[4..], Hopped(s, k, []))
  {
    var acts := LeaveThenAsk()[4..];
    assert acts == [Ask, Hear(true), Take];
    var t := Fenced(s, k);
    var s1 := Apply(t, acts[0]);
    var s2 := Apply(s1, acts[1]);
    var s3 := Apply(s2, acts[2]);
    assert s3 == Hopped(s, k, []);
    hide Apply, Leads, Fenced, Hopped;
    Nothing(t, acts);
    Further(t, acts, 0, t);
    Further(t, acts, 1, s1);
    Further(t, acts, 2, s2);
    assert acts[..|acts|] == acts;
  }

  lemma LeavingThenAsking(s: State, k: nat)
    requires Settled(s, k)
    ensures Leads(s, LeaveThenAsk(), Hopped(s, k, []))
  {
    hide *;
    SevenActs();
    LeavingFirst(s, k);
    AskingThen(s, k);
    LeadsOn(s, LeaveThenAsk()[..4], Fenced(s, k), LeaveThenAsk()[4..], Hopped(s, k, []));
  }

  lemma SevenActs()
    ensures |LeaveThenAsk()| == 7 && LeaveThenAsk()[..4] + LeaveThenAsk()[4..] == LeaveThenAsk()
  {
  }

  lemma HoppedIsSettled(s: State, k: nat, late: seq<Frame>)
    requires Settled(s, k)
    ensures Settled(Hopped(s, k, late), k + 1)
  {
  }

  // ----- Any number of them -----

  lemma Beginning()
    ensures Possible([Hear(true), Take]) && Settled(After([Hear(true), Take]), 0)
  {
    var acts := [Hear(true), Take];
    assert Possible([]);
    assert acts[..1][..0] == [] && acts[..1][0] == Hear(true) && acts[..1] == [Hear(true)];
    assert Possible(acts[..1]);
  }

  /**
    One transport carries as many attachments one after another as are wanted, typed
    in and shown in each, the next asked for before or after the last is let go.
   */
  lemma {:induction false} AnyNumberOfVisits(n: nat, typed: Byte, shown: Byte, late: Byte, atOnce: nat -> bool)
    returns (acts: seq<Act>)
    requires typed !in {REQUEST, PARK, DETACH} && shown != PARK && late != PARK
    ensures Possible(acts) && Settled(After(acts), n)
    ensures forall k | 0 <= k <= n :: After(acts).readers[k] == [Frame(shown, true, k, Body)]
    decreases n
  {
    hide Possible, After, Apply, Leads, TypeAndShow, LeaveAndAsk, LeaveThenAsk;
    if n == 0 {
      acts := [Hear(true), Take];
      Beginning();
      assert After(acts).readers[0] == [] by { NothingShownYet(); }
    } else {
      acts := AnyNumberOfVisits(n - 1, typed, shown, late, atOnce);
      var s := After(acts);
      if atOnce(n) {
        LeavingAndAsking(s, n - 1, late);
        HoppedIsSettled(s, n - 1, [Frame(late, true, n - 1, Body)]);
        LeadsThere(acts, LeaveAndAsk(late), Hopped(s, n - 1, [Frame(late, true, n - 1, Body)]));
        acts := acts + LeaveAndAsk(late);
      } else {
        LeavingThenAsking(s, n - 1);
        HoppedIsSettled(s, n - 1, []);
        LeadsThere(acts, LeaveThenAsk(), Hopped(s, n - 1, []));
        acts := acts + LeaveThenAsk();
      }
    }
    var s := After(acts);
    TypingAndShowing(s, n, typed, shown);
    LeadsThere(acts, TypeAndShow(typed, shown),
               s.(sent := s.sent + [Frame(typed, true, n, Body)], heard := s.heard + 1,
                  wrote := s.wrote + [Frame(shown, true, n, Body)], read := s.read + 1,
                  readers := s.readers[n := s.readers[n] + [Frame(shown, true, n, Body)]]));
    acts := acts + TypeAndShow(typed, shown);
  }

  lemma NothingShownYet()
    ensures Possible([Hear(true), Take]) && After([Hear(true), Take]).readers == [[]]
  {
    var acts := [Hear(true), Take];
    assert Possible([]);
    assert acts[..1][..0] == [] && acts[..1] == [Hear(true)];
    assert Possible(acts[..1]);
  }

  // ----- And ends -----

  /** A detach ends the node's side, and so does a request refused, which closes the client's. */
  lemma Endings(s: State, k: nat)
    requires Settled(s, k)
    ensures var t := s.(sent := s.sent + [Frame(DETACH, true, k, Body)]);
            Enabled(s, Type(DETACH)) && Apply(s, Type(DETACH)) == t
            && Enabled(t, Hear(true)) && Apply(t, Hear(true)) == t.(heard := s.heard + 1, node := Ended)
    ensures var t := s.(client := Waiting(k + 1), node := Idle, sent := s.sent + [Frame(REQUEST, true, k + 1, Opening)]);
            && Enabled(t, Hear(false)) && Apply(t, Hear(false)).node == Ended
            && Enabled(Apply(t, Hear(false)), Take) && Apply(Apply(t, Hear(false)), Take).client == Closed
            && Apply(Apply(t, Hear(false)), Take).answers == s.answers + [Frame(RESPONSE, false, k + 1, Opening)]
  {
  }

  /** And at any moment either party may go away, or the connection, with whatever had not arrived. */
  lemma AnythingCanFail(s: State, arrived: nat)
    ensures Enabled(s, Abandon) && Apply(s, Abandon) == s.(client := Closed)
    ensures Enabled(s, Hangup) && Apply(s, Hangup) == s.(node := Ended)
    ensures s.read <= arrived <= |s.wrote| ==>
              Enabled(s, Lose(arrived)) && Apply(s, Lose(arrived)) == s.(node := Ended, wrote := s.wrote[..arrived])
  {
  }

  /** A frame that is not what is due would end it on either side, and be noticed. */
  lemma StrangersAreNoticed(s: State)
    ensures s.client.Waiting? && s.read < |s.wrote| && s.wrote[s.read].tag != RESPONSE ==>
              Enabled(s, Take) && Apply(s, Take) == s.(read := s.read + 1, client := Closed, confused := true)
    ensures s.node.Idle? && s.heard < |s.sent| && s.sent[s.heard].tag != REQUEST ==>
              Enabled(s, Hear(true)) && Apply(s, Hear(true)) == s.(heard := s.heard + 1, node := Ended)
  {
  }
}
