/**
  src/client/mod.rs and src/node/mod.rs: one transport reused for attachment
  after attachment. Leaving one, the client sends PARK and drains whatever is
  still arriving until the node's own PARK, which the node writes only after it
  has dropped the attachment; the next attach request may already have been sent
  behind the client's PARK.

  The two pipes are FIFO and everything else interleaves freely. Frames carry a
  label saying which attachment they belong to, which no party reads: the client
  and the node go by the tag alone. The theorems say the labels come out right.
 */
module Park {
  import opened Bytes
  import opened Wrappers

  const REQUEST: Byte := 0x01
  const RESPONSE: Byte := 0x02
  const DETACH: Byte := 0x13
  const PARK: Byte := 0x20

  /** A frame's part in its attachment: it opens it, belongs to it, or closes it. */
  datatype Part = Opening | Body | Closing

  /** `ok` is false only in the response refusing an attach. */
  datatype Frame = Frame(tag: Byte, ok: bool, of: nat, part: Part)

  datatype Client =
    | Waiting(k: nat)                 // attach request `k` sent, every fence behind us
    | Attached(k: nat)
    | Draining(k: nat, asked: bool)   // PARK sent, its fence not yet seen
    | Ready(k: nat)                   // fence seen, nothing asked for
    | Closed

  datatype Node =
    | Idle
    | Serving(k: nat)
    | Releasing(k: nat)               // PARK read, the attachment dropped, the fence not yet written
    | Ended

  /**
    `sent` and `wrote` are all that was ever put into the two pipes, `heard` and
    `read` how much of it came out. `readers[k]` is what attachment `k`'s reader
    was handed, `starts[k]` how much had been read when it began, and `answers[k]`
    the response the client took for request `k`.
   */
  datatype State = State(
    client: Client, node: Node,
    sent: seq<Frame>, heard: nat,
    wrote: seq<Frame>, read: nat,
    readers: seq<seq<Frame>>, starts: seq<nat>, answers: seq<Frame>,
    confused: bool)

  function Initial(): State {
    State(Waiting(0), Idle, [Frame(REQUEST, true, 0, Opening)], 0, [], 0, [], [], [], false)
  }

  datatype Act =
    // The client.
    | Type(tag: Byte)
    | Leave
    | Ask
    | Take        // read one frame, whatever for
    | Abandon
    // The node.
    | Emit(tag: Byte)
    | Hear(accepts: bool)
    | Fence
    | Hangup
    // The connection between them, losing what had not arrived.
    | Lose(arrived: nat)

  predicate Enabled(s: State, act: Act) {
    match act
    case Type(tag) => s.client.Attached? && tag !in {REQUEST, PARK}
    case Leave => s.client.Attached?
    case Ask => s.client.Ready? || (s.client.Draining? && !s.client.asked)
    case Take => (s.client.Waiting? || s.client.Attached? || s.client.Draining?) && s.read < |s.wrote|
    case Abandon => true
    case Emit(tag) => s.node.Serving? && tag != PARK
    case Hear(_) => (s.node.Idle? || s.node.Serving?) && s.heard < |s.sent|
    case Fence => s.node.Releasing?
    case Hangup => true
    case Lose(arrived) => s.read <= arrived <= |s.wrote|
  }

  function Apply(s: State, act: Act): State
    requires Enabled(s, act)
  {
    match act
    case Type(tag) => s.(sent := s.sent + [Frame(tag, true, s.client.k, Body)])
    case Leave => s.(sent := s.sent + [Frame(PARK, true, s.client.k, Closing)], client := Draining(s.client.k, false))
    case Ask =>
      var k := s.client.k + 1;
      s.(sent := s.sent + [Frame(REQUEST, true, k, Opening)],
         client := if s.client.Ready? then Waiting(k) else Draining(k - 1, true))
    case Take => Taken(s.(read := s.read + 1), s.wrote[s.read])
    case Abandon => s.(client := Closed)
    case Emit(tag) => s.(wrote := s.wrote + [Frame(tag, true, s.node.k, Body)])
    case Hear(accepts) => Heard(s.(heard := s.heard + 1), s.sent[s.heard], accepts)
    case Fence => s.(wrote := s.wrote + [Frame(PARK, true, s.node.k, Closing)], node := Idle)
    case Hangup => s.(node := Ended)
    case Lose(arrived) => s.(node := Ended, wrote := s.wrote[..arrived])
  }

  /** A frame comes out of the pipe at the client, which knows its tag and no more. */
  function Taken(s: State, f: Frame): State
    requires s.client.Waiting? || s.client.Attached? || s.client.Draining?
  {
    match s.client
    case Waiting(k) =>
      if f.tag != RESPONSE then s.(client := Closed, confused := true)
      else if f.ok then
        s.(client := Attached(k), answers := s.answers + [f], readers := s.readers + [[]], starts := s.starts + [s.read])
      else s.(client := Closed, answers := s.answers + [f])
    case Attached(k) =>
      if |s.readers| == 0 then s
      else s.(readers := s.readers[|s.readers| - 1 := s.readers[|s.readers| - 1] + [f]])
    case Draining(k, asked) =>
      if f.tag != PARK then s
      else s.(client := if asked then Waiting(k + 1) else Ready(k))
  }

  /** A frame comes out of the pipe at the node. */
  function Heard(s: State, f: Frame, accepts: bool): State
    requires s.node.Idle? || s.node.Serving?
  {
    if s.node.Idle? then
      if f.tag != REQUEST then s.(node := Ended)
      else
        var response := Frame(RESPONSE, accepts, f.of, Opening);
        s.(wrote := s.wrote + [response], node := if accepts then Serving(f.of) else Ended)
    else if f.tag == PARK then s.(node := Releasing(s.node.k))
    else if f.tag == DETACH then s.(node := Ended)
    else s
  }

  // ----- Runs -----

  predicate Possible(acts: seq<Act>)
    decreases |acts|, 0
  {
    acts == [] || (Possible(acts[..|acts| - 1]) && Enabled(After(acts[..|acts| - 1]), acts[|acts| - 1]))
  }

  function After(acts: seq<Act>): State
    requires Possible(acts)
    decreases |acts|, 1
  {
    if acts == [] then Initial() else Apply(After(acts[..|acts| - 1]), acts[|acts| - 1])
  }

  // ----- The shape both pipes have -----

  /** Where a frame stands in `Opening 0, Body 0 ..., Closing 0, Opening 1, ...`. */
  function Rank(f: Frame): nat {
    3 * f.of + match f.part case Opening => 0 case Body => 1 case Closing => 2
  }

  predicate Follows(f: Frame, g: Frame) {
    && f.ok
    && (match f.part
        case Opening => Rank(g) == Rank(f) + 1 || Rank(g) == Rank(f) + 2
        case Body => Rank(g) == Rank(f) || Rank(g) == Rank(f) + 1
        case Closing => Rank(g) == Rank(f) + 1)
  }

  predicate Shape(s: seq<Frame>, opener: Byte) {
    && (s != [] ==> Rank(s[0]) == 0)
    && (forall i | 0 <= i < |s| - 1 :: Follows(s[i], s[i + 1]))
    && (forall f | f in s :: (f.part == Closing <==> f.tag == PARK) && (f.part == Opening ==> f.tag == opener))
  }

  lemma {:induction false} RanksNeverFall(s: seq<Frame>, opener: Byte, i: nat, j: nat)
    requires Shape(s, opener) && i <= j < |s|
    ensures Rank(s[i]) <= Rank(s[j])
    decreases j
  {
    if i < j {
      RanksNeverFall(s, opener, i, j - 1);
      assert Follows(s[j - 1], s[j - 1 + 1]);
    }
  }

  lemma ShapeGrows(s: seq<Frame>, opener: Byte, f: Frame)
    requires Shape(s, opener)
    requires if s == [] then Rank(f) == 0 else Follows(s[|s| - 1], f)
    requires (f.part == Closing <==> f.tag == PARK) && (f.part == Opening ==> f.tag == opener)
    ensures Shape(s + [f], opener)
  {
    var t := s + [f];
    forall i | 0 <= i < |t| - 1 ensures Follows(t[i], t[i + 1]) {
      if i < |s| - 1 { assert Follows(s[i], s[i + 1]); }
    }
  }

  // ----- The invariant -----

  /** The last frame out of a pipe, by its rank; before any, the rank just below the first. */
  function Past(s: seq<Frame>, n: nat): int
    requires n <= |s|
  {
    if n == 0 then -1 else Rank(s[n - 1])
  }

  /** Reading attachment `k`: its opening or some of its body was the last thing seen. */
  predicate Within(rank: int, k: nat) {
    3 * k <= rank <= 3 * k + 1
  }

  /** What was last seen and last said at the client, as ranks, given its phase. */
  predicate ClientKnows(client: Client, saw: int, said: int, readers: nat, answers: nat) {
    match client
    case Waiting(k) => saw == 3 * k - 1 && said == 3 * k && readers == answers == k
    case Attached(k) => Within(saw, k) && Within(said, k) && readers == answers == k + 1
    case Draining(k, asked) =>
      Within(saw, k) && said == (if asked then 3 * k + 3 else 3 * k + 2) && readers == answers == k + 1
    case Ready(k) => saw == 3 * k + 2 && said == 3 * k + 2 && readers == answers == k + 1
    case Closed => readers <= answers
  }

  /** What was last heard and last written at the node, as ranks, given its phase. */
  predicate NodeKnows(node: Node, heard: int, wrote: int, refused: bool, said: int) {
    && (refused ==> node.Ended?)
    && match node
       case Idle => heard == wrote && (heard + 1) % 3 == 0
       case Serving(k) => Within(heard, k) && Within(wrote, k)
       case Releasing(k) => heard == 3 * k + 2 && Within(wrote, k)
       case Ended => NoFurther(wrote, said)
  }

  predicate Refused(wrote: seq<Frame>) {
    wrote != [] && !wrote[|wrote| - 1].ok
  }

  /** The node has not gone further than the client let it: at most into the attachment last asked for. */
  predicate NoFurther(wrote: int, said: int) {
    wrote <= said || (wrote == said + 1 && said % 3 == 0)
  }

  /** What reader `k` was handed: the frames right after response `k`, in order, all of them `k`'s own. */
  predicate HandedRun(wrote: seq<Frame>, k: nat, got: seq<Frame>, start: nat) {
    && 0 < start <= start + |got| <= |wrote|
    && wrote[start - 1].part == Opening && wrote[start - 1].of == k
    && got == wrote[start..start + |got|]
    && forall f | f in got :: f.part == Body && f.of == k
  }

  /** Where both parties are in the two streams, and that they know it. */
  predicate Linked(s: State) {
    && s.heard <= |s.sent| && s.read <= |s.wrote| && s.sent != []
    && Shape(s.sent, REQUEST) && Shape(s.wrote, RESPONSE)
    && (forall f | f in s.sent :: f.ok && (f.part == Body ==> f.tag != REQUEST))
    && ClientKnows(s.client, Past(s.wrote, s.read), Past(s.sent, |s.sent|), |s.readers|, |s.answers|)
    && NodeKnows(s.node, Past(s.sent, s.heard), Past(s.wrote, |s.wrote|), Refused(s.wrote), Past(s.sent, |s.sent|))
    && !s.confused
    && (forall k | 0 <= k < |s.answers| :: s.answers[k].of == k && s.answers[k].part == Opening)
  }

  predicate Handed(s: State) {
    && |s.starts| == |s.readers| && s.read <= |s.wrote|
    && (forall k | 0 <= k < |s.readers| ::
          HandedRun(s.wrote, k, s.readers[k], s.starts[k]) && s.starts[k] + |s.readers[k]| <= s.read)
    && (s.client.Attached? ==>
          && |s.readers| == s.client.k + 1
          && s.starts[s.client.k] + |s.readers[s.client.k]| == s.read)
  }

  predicate Invariant(s: State) {
    Linked(s) && Handed(s)
  }

  lemma NodeIsNoFurther(s: State)
    requires Linked(s)
    ensures NoFurther(Past(s.wrote, |s.wrote|), Past(s.sent, |s.sent|))
  {
    if s.heard > 0 { RanksNeverFall(s.sent, REQUEST, s.heard - 1, |s.sent| - 1); }
    FirstRankIsLeast(s.sent, REQUEST);
  }

  lemma FirstRankIsLeast(s: seq<Frame>, opener: Byte)
    requires Shape(s, opener)
    ensures Past(s, |s|) >= (if s == [] then -1 else 0)
  {
  }

  /** What the client can find next in the pipe, from where it stands. */
  lemma NextRead(s: State)
    requires Linked(s) && s.read < |s.wrote|
    ensures var f, saw := s.wrote[s.read], Past(s.wrote, s.read);
            && (s.read == 0 ==> Rank(f) == 0)
            && (s.read > 0 ==> Follows(s.wrote[s.read - 1], f))
            && Rank(f) <= Past(s.wrote, |s.wrote|)
            && (f.part == Closing <==> f.tag == PARK) && (f.part == Opening ==> f.tag == RESPONSE)
  {
    hide ClientKnows, NodeKnows;
    RanksNeverFall(s.wrote, RESPONSE, s.read, |s.wrote| - 1);
    if s.read > 0 { assert Follows(s.wrote[s.read - 1], s.wrote[s.read - 1 + 1]); }
    assert s.wrote[s.read] in s.wrote;
  }

  lemma NextHeard(s: State)
    requires Linked(s) && s.heard < |s.sent|
    ensures var f := s.sent[s.heard];
            && (s.heard == 0 ==> Rank(f) == 0)
            && (s.heard > 0 ==> Follows(s.sent[s.heard - 1], f))
            && Rank(f) <= Past(s.sent, |s.sent|)
            && f.ok && (f.part == Closing <==> f.tag == PARK) && (f.part == Opening <==> f.tag == REQUEST)
  {
    RanksNeverFall(s.sent, REQUEST, s.heard, |s.sent| - 1);
    hide ClientKnows, NodeKnows;
    if s.heard > 0 { assert Follows(s.sent[s.heard - 1], s.sent[s.heard - 1 + 1]); }
    assert s.sent[s.heard] in s.sent;
  }

  /** Runs already handed over do not change when the pipe behind them does. */
  lemma HandedStays(s: State, t: State)
    requires Handed(s)
    requires s.read == t.read <= |t.wrote| && t.wrote[..s.read] == s.wrote[..s.read]
    requires t.readers == s.readers && t.starts == s.starts
    requires t.client.Attached? ==> t.client == s.client
    ensures Handed(t)
  {
    hide HandedRun;
    forall k | 0 <= k < |t.readers| ensures HandedRun(t.wrote, k, t.readers[k], t.starts[k]) {
      RunIsLocal(s.wrote, t.wrote, k, s.readers[k], s.starts[k], s.read);
    }
  }

  lemma RunIsLocal(a: seq<Frame>, b: seq<Frame>, k: nat, got: seq<Frame>, start: nat, read: nat)
    requires HandedRun(a, k, got, start) && start + |got| <= read <= |a| && read <= |b| && a[..read] == b[..read]
    ensures HandedRun(b, k, got, start)
  {
    assert a[..read][start..start + |got|] == a[start..start + |got|];
    assert b[..read][start..start + |got|] == b[start..start + |got|];
    assert a[..read][start - 1] == b[..read][start - 1];
  }

  lemma ClientSpeaks(s: State, act: Act)
    requires Linked(s) && Enabled(s, act) && (act.Type? || act.Leave? || act.Ask?)
    ensures Linked(Apply(s, act))
  {
    if act.Type? { ClientTypes(s, act.tag); } else { ClientTurns(s, act); }
  }

  lemma ClientTypes(s: State, tag: Byte)
    requires Linked(s) && Enabled(s, Type(tag))
    ensures Linked(Apply(s, Type(tag)))
  {
    var t := Apply(s, Type(tag));
    var f := t.sent[|s.sent|];
    assert t.sent == s.sent + [f];
    var last := s.sent[|s.sent| - 1];
    assert last in s.sent;
    NodeIsNoFurther(s);
    ShapeGrows(s.sent, REQUEST, f) by { assert Follows(last, f); }
    hide Shape, Follows;
    assert Past(t.sent, s.heard) == Past(s.sent, s.heard);
    assert Past(t.sent, |t.sent|) == Rank(f);
  }

  lemma ClientTurns(s: State, act: Act)
    requires Linked(s) && Enabled(s, act) && (act.Leave? || act.Ask?)
    ensures Linked(Apply(s, act))
  {
    var t := Apply(s, act);
    var f := t.sent[|s.sent|];
    assert t.sent == s.sent + [f];
    var last := s.sent[|s.sent| - 1];
    assert last in s.sent;
    NodeIsNoFurther(s);
    ShapeGrows(s.sent, REQUEST, f) by { assert Follows(last, f); }
    hide Shape, Follows;
    assert Past(t.sent, s.heard) == Past(s.sent, s.heard);
    assert Past(t.sent, |t.sent|) == Rank(f);
  }

  lemma NodeSpeaks(s: State, act: Act)
    requires Linked(s) && Enabled(s, act) && (act.Emit? || act.Fence?)
    ensures Linked(Apply(s, act))
  {
    var t := Apply(s, act);
    var f := t.wrote[|s.wrote|];
    assert t.wrote == s.wrote + [f];
    ShapeGrows(s.wrote, RESPONSE, f) by { assert Follows(s.wrote[|s.wrote| - 1], f); }
    hide Shape, Follows;
    assert Past(t.wrote, s.read) == Past(s.wrote, s.read);
    assert Past(t.wrote, |t.wrote|) == Rank(f);
  }

  lemma NodeHears(s: State, accepts: bool)
    requires Linked(s) && Enabled(s, Hear(accepts))
    ensures Linked(Apply(s, Hear(accepts)))
  {
    NextHeard(s);
    NodeIsNoFurther(s);
    hide Linked, Apply, Follows, Past, Rank;
    if s.node.Idle? { NodeAnswers(s, accepts); } else { NodeListens(s, accepts); }
  }

  lemma NodeListens(s: State, accepts: bool)
    requires Linked(s) && Enabled(s, Hear(accepts)) && s.node.Serving?
    requires NoFurther(Past(s.wrote, |s.wrote|), Past(s.sent, |s.sent|))
    requires var f := s.sent[s.heard];
             && (s.heard == 0 ==> Rank(f) == 0)
             && (s.heard > 0 ==> Follows(s.sent[s.heard - 1], f))
             && (f.part == Closing <==> f.tag == PARK)
    ensures Linked(Apply(s, Hear(accepts)))
  {
    hide Shape, Refused, ClientKnows, NoFurther;
    assert Past(s.sent, s.heard + 1) == Rank(s.sent[s.heard]);
  }

  lemma NodeAnswers(s: State, accepts: bool)
    requires Linked(s) && Enabled(s, Hear(accepts)) && s.node.Idle?
    requires NoFurther(Past(s.wrote, |s.wrote|), Past(s.sent, |s.sent|))
    requires Rank(s.sent[s.heard]) <= Past(s.sent, |s.sent|)
    requires var f := s.sent[s.heard];
             && (s.heard == 0 ==> Rank(f) == 0)
             && (s.heard > 0 ==> Follows(s.sent[s.heard - 1], f))
             && (f.part == Closing <==> f.tag == PARK) && (f.part == Opening <==> f.tag == REQUEST)
    ensures Linked(Apply(s, Hear(accepts)))
  {
    var t := Apply(s, Hear(accepts));
    var f := s.sent[s.heard];
    assert Past(s.sent, s.heard + 1) == Rank(f);
    assert Rank(f) == Past(s.sent, s.heard) + 1 && f.part == Opening;
    var response := Frame(RESPONSE, accepts, f.of, Opening);
    assert t.wrote == s.wrote + [response];
    ShapeGrows(s.wrote, RESPONSE, response) by {
      assert s.wrote != [] ==> Follows(s.wrote[|s.wrote| - 1], response);
    }
    hide Shape, Follows;
    assert Past(t.wrote, s.read) == Past(s.wrote, s.read);
    assert Past(t.wrote, |t.wrote|) == Rank(response);
  }

  lemma ConnectionFails(s: State, act: Act)
    requires Linked(s) && Enabled(s, act) && (act.Abandon? || act.Hangup? || act.Lose?)
    ensures Linked(Apply(s, act))
  {
    var t := Apply(s, act);
    NodeIsNoFurther(s);
    FirstRankIsLeast(s.sent, REQUEST);
    FirstRankIsLeast(s.wrote, RESPONSE);
    if act.Lose? {
      var n := act.arrived;
      ShapeShrinks(s.wrote, RESPONSE, n);
      if n > 0 { RanksNeverFall(s.wrote, RESPONSE, n - 1, |s.wrote| - 1); }
      hide Shape;
      assert Past(t.wrote, s.read) == Past(s.wrote, s.read);
      assert Past(t.wrote, n) <= Past(s.wrote, |s.wrote|);
    }
  }

  lemma ShapeShrinks(s: seq<Frame>, opener: Byte, n: nat)
    requires Shape(s, opener) && n <= |s|
    ensures Shape(s[..n], opener)
  {
    hide Follows;
    forall i | 0 <= i < n - 1 ensures Follows(s[..n][i], s[..n][i + 1]) {
      assert Follows(s[i], s[i + 1]);
    }
    assert forall f | f in s[..n] :: f in s;
  }

  /** The tag alone tells the client what the label would have. */
  lemma TakenIs(s: State)
    requires Linked(s) && Enabled(s, Take)
    ensures var f := s.wrote[s.read];
            match s.client
            case Waiting(k) => f.tag == RESPONSE && f.part == Opening && f.of == k
            case Attached(k) => f.part == Body && f.of == k
            case Draining(k, _) => f.of == k && if f.tag == PARK then f.part == Closing else f.part == Body
            case _ => true
  {
    NextRead(s);
    NodeIsNoFurther(s);
    hide Shape;
  }

  lemma ClientTakes(s: State)
    requires Linked(s) && Enabled(s, Take)
    ensures Linked(Apply(s, Take))
  {
    hide Shape, Follows;
    var t := Apply(s, Take);
    TakenIs(s);
    assert Past(t.wrote, t.read) == Rank(s.wrote[s.read]);
  }

  lemma TakingHands(s: State)
    requires Invariant(s) && Enabled(s, Take)
    ensures Handed(Apply(s, Take))
  {
    if s.client.Attached? { TakingReads(s); } else { TakingBegins(s); }
  }

  lemma TakingReads(s: State)
    requires Invariant(s) && Enabled(s, Take) && s.client.Attached?
    ensures Handed(Apply(s, Take))
  {
    TakenIs(s);
    ReadersSoFar(s);
    hide Linked, HandedRun, NodeKnows, ClientKnows, Past, Rank;
    var t, k := Apply(s, Take), s.client.k;
    RunGrows(s.wrote, k, s.readers[k], s.starts[k]);
    assert t.readers == s.readers[k := s.readers[k] + [s.wrote[s.read]]];
  }

  lemma TakingBegins(s: State)
    requires Invariant(s) && Enabled(s, Take) && !s.client.Attached?
    ensures Handed(Apply(s, Take))
  {
    TakenIs(s);
    ReadersSoFar(s);
    hide Linked, HandedRun, NodeKnows, ClientKnows, Past, Rank;
    if s.client.Waiting? { RunBegins(s.wrote, s.client.k, Apply(s, Take).read); }
  }

  lemma ReadersSoFar(s: State)
    requires Linked(s)
    ensures s.client.Waiting? ==> |s.readers| == s.client.k
    ensures s.client.Attached? ==> |s.readers| == s.client.k + 1
  {
  }

  lemma RunGrows(wrote: seq<Frame>, k: nat, got: seq<Frame>, start: nat)
    requires HandedRun(wrote, k, got, start)
    requires start + |got| < |wrote| && wrote[start + |got|].part == Body && wrote[start + |got|].of == k
    ensures HandedRun(wrote, k, got + [wrote[start + |got|]], start)
  {
  }

  lemma RunBegins(wrote: seq<Frame>, k: nat, start: nat)
    requires 0 < start <= |wrote| && wrote[start - 1].part == Opening && wrote[start - 1].of == k
    ensures HandedRun(wrote, k, [], start)
  {
  }

  lemma StepKeeps(s: State, act: Act)
    requires Invariant(s) && Enabled(s, act)
    ensures Invariant(Apply(s, act))
  {
    if act.Take? {
      hide Linked, Handed, Apply;
      ClientTakes(s);
      TakingHands(s);
    } else {
      StepLinks(s, act);
      StepLeavesWhatWasRead(s, act);
      hide Linked, Handed, Apply;
      HandedStays(s, Apply(s, act));
    }
  }

  lemma StepLinks(s: State, act: Act)
    requires Linked(s) && Enabled(s, act)
    ensures Linked(Apply(s, act))
  {
    hide Linked, Apply;
    match act
    case Type(_) => ClientSpeaks(s, act);
    case Leave => ClientSpeaks(s, act);
    case Ask => ClientSpeaks(s, act);
    case Take => ClientTakes(s);
    case Abandon => ConnectionFails(s, act);
    case Emit(_) => NodeSpeaks(s, act);
    case Hear(accepts) => NodeHears(s, accepts);
    case Fence => NodeSpeaks(s, act);
    case Hangup => ConnectionFails(s, act);
    case Lose(_) => ConnectionFails(s, act);
  }

  lemma StepLeavesWhatWasRead(s: State, act: Act)
    requires Enabled(s, act) && !act.Take? && s.read <= |s.wrote|
    ensures var t := Apply(s, act);
            && t.read == s.read && s.read <= |t.wrote| && t.wrote[..s.read] == s.wrote[..s.read]
            && t.readers == s.readers && t.starts == s.starts && (t.client.Attached? ==> t.client == s.client)
  {
  }

  lemma {:induction false} RunKeeps(acts: seq<Act>)
    requires Possible(acts)
    ensures Invariant(After(acts))
    decreases |acts|
  {
    hide Invariant, Apply;
    if acts == [] {
      assert Invariant(Initial()) by { InitialHolds(); }
    } else {
      RunKeeps(acts[..|acts| - 1]);
      StepKeeps(After(acts[..|acts| - 1]), acts[|acts| - 1]);
    }
  }

  lemma InitialHolds()
    ensures Invariant(Initial())
  {
  }

  // ----- What a run can be relied on for -----

  /** No reader is ever handed a frame of any attachment but its own. */
  lemma NoFrameCrossesTheFence(acts: seq<Act>, k: nat, f: Frame)
    requires Possible(acts) && k < |After(acts).readers| && f in After(acts).readers[k]
    ensures f.of == k && f.part == Body
  {
    hide Linked, Apply;
    RunKeeps(acts);
    assert HandedRun(After(acts).wrote, k, After(acts).readers[k], After(acts).starts[k]);
  }

  /** What a reader was handed is what its attachment emitted first, in order and with no gap. */
  lemma ReadersMissNothing(acts: seq<Act>, k: nat) returns (start: nat)
    requires Possible(acts) && k < |After(acts).readers|
    ensures var s := After(acts);
            && start + |s.readers[k]| <= s.read <= |s.wrote|
            && 0 < start && s.wrote[start - 1].part == Opening && s.wrote[start - 1].of == k
            && s.readers[k] == s.wrote[start..start + |s.readers[k]|]
  {
    hide Linked, Apply;
    RunKeeps(acts);
    start := After(acts).starts[k];
    assert HandedRun(After(acts).wrote, k, After(acts).readers[k], start);
  }

  /** The response taken for request `k` is the one to request `k`, and nothing else is ever found there. */
  lemma AnswersAreTheirOwn(acts: seq<Act>)
    requires Possible(acts)
    ensures forall k | 0 <= k < |After(acts).answers| :: After(acts).answers[k].of == k && After(acts).answers[k].part == Opening
    ensures !After(acts).confused
  {
    RunKeeps(acts);
    hide Handed, Apply, ClientKnows, NodeKnows, Shape;
  }

  /** A client waiting on its old node or its new answer is never waiting on something waiting on it. */
  lemma NeitherWaitsForever(acts: seq<Act>, room: nat)
    requires Possible(acts) && room > 0
    requires (After(acts).client.Draining? || After(acts).client.Waiting?) && !After(acts).node.Ended?
    ensures var s := After(acts);
            || Enabled(s, Take)
            || (|s.wrote| - s.read < room && (Enabled(s, Hear(true)) || Enabled(s, Fence)))
  {
    RunKeeps(acts);
    hide Handed, Apply, Linked, Possible;
    SomethingCanMove(After(acts), room);
  }

  lemma SomethingCanMove(s: State, room: nat)
    requires Linked(s) && room > 0
    requires (s.client.Draining? || s.client.Waiting?) && !s.node.Ended?
    ensures || Enabled(s, Take)
            || (|s.wrote| - s.read < room && (Enabled(s, Hear(true)) || Enabled(s, Fence)))
  {
    hide Shape, Rank;
    if s.read == |s.wrote| && s.heard == |s.sent| {
      assert s.node.Releasing?;
    }
  }

  // ----- The draining loop -----

  /** What is left behind the fence, if it has arrived. */
  function BeyondFence(frames: seq<Frame>): Option<seq<Frame>> {
    if frames == [] then None
    else if frames[0].tag == PARK then Some(frames[1..])
    else BeyondFence(frames[1..])
  }

  /** Why there is no answer: the connection ended, reading it failed, or what came was something else. */
  datatype Lost = AtEnd | Failed | NotAnAnswer

  /** The reading half of a parked transport: the frames that arrive on it, and then how it ends. */
  class ParkedReader {
    var arrived: seq<Frame>
    const fails: bool

    constructor (frames: seq<Frame>, fails: bool)
      ensures arrived == frames && this.fails == fails
    {
      arrived := frames;
      this.fails := fails;
    }

    function Ending(): (lost: Lost)
      ensures lost == Failed <==> fails
      ensures lost == AtEnd <==> !fails
    {
      if fails then Failed else AtEnd
    }

    /** The next frame, or how the connection ended; a reset is a close. */
    method NextParked() returns (frame: Result<Frame, Lost>)
      modifies this
      ensures old(arrived) == [] ==> frame == Err(Ending()) && arrived == []
      ensures old(arrived) != [] ==> frame == Ok(old(arrived)[0]) && arrived == old(arrived)[1..]
    {
      if arrived == [] {
        return Err(Ending());
      }
      frame := Ok(arrived[0]);
      arrived := arrived[1..];
    }

    /** Throw away old output until the node's fence. */
    method Drain() returns (fenced: Result<(), Lost>)
      modifies this
      ensures fenced == if BeyondFence(old(arrived)).Some? then Ok(()) else Err(Ending())
      ensures arrived == if fenced.Ok? then BeyondFence(old(arrived)).value else []
    {
      while true
        invariant BeyondFence(arrived) == BeyondFence(old(arrived))
        decreases |arrived|
      {
        var next := NextParked();
        match next {
          case Err(lost) => return Err(lost);
          case Ok(frame) => if frame.tag == PARK { return Ok(()); }
        }
      }
    }

    /** The pipelined attach: past the fence, the next frame has to be the answer. */
    method Attach() returns (answer: Result<Frame, Lost>)
      modifies this
      ensures match BeyondFence(old(arrived))
              case None => answer == Err(Ending())
              case Some(rest) =>
                answer == if rest == [] then Err(Ending())
                          else if rest[0].tag != RESPONSE then Err(NotAnAnswer)
                          else Ok(rest[0])
    {
      var fenced := Drain();
      if fenced.Err? {
        return Err(fenced.error);
      }
      answer := NextParked();
      if answer.Ok? && answer.value.tag != RESPONSE {
        return Err(NotAnAnswer);
      }
    }
  }

  /** In any run, the loop's answer to a pipelined attach can only be that attach's own. */
  lemma DrainFindsTheAnswer(acts: seq<Act>, arrived: nat)
    requires Possible(acts) && After(acts).client.Draining? && After(acts).client.asked
    requires After(acts).read <= arrived <= |After(acts).wrote|
    ensures var s := After(acts);
            match BeyondFence(s.wrote[s.read..arrived])
            case Some(rest) => rest != [] ==> rest[0].tag == RESPONSE && rest[0].part == Opening && rest[0].of == s.client.k + 1
            case None => true
  {
    RunKeeps(acts);
    var s := After(acts);
    hide Handed, Apply, Possible;
    FenceIsFollowedByTheAnswer(s.wrote, s.read, arrived, s.client.k);
  }

  lemma {:induction false} FenceIsFollowedByTheAnswer(wrote: seq<Frame>, read: nat, arrived: nat, k: nat)
    requires Shape(wrote, RESPONSE) && 0 < read <= arrived <= |wrote| && Within(Rank(wrote[read - 1]), k)
    ensures match BeyondFence(wrote[read..arrived])
            case Some(rest) => rest != [] ==> rest[0].tag == RESPONSE && rest[0].part == Opening && rest[0].of == k + 1
            case None => true
    decreases arrived - read
  {
    if read < arrived {
      assert Follows(wrote[read - 1], wrote[read - 1 + 1]);
      assert wrote[read] in wrote;
      assert wrote[read..arrived][1..] == wrote[read + 1..arrived];
      if wrote[read].tag != PARK {
        FenceIsFollowedByTheAnswer(wrote, read + 1, arrived, k);
      } else if read + 1 < arrived {
        assert Follows(wrote[read], wrote[read + 1]);
        assert wrote[read + 1] in wrote;
      }
    }
  }
}
