/** Why stream messages are exempt from the blocks: their text can come after the idle status, and exactly when. */
module Late {
  import opened Protocol
  import opened Kernel
  import opened Session
  import opened Streams
  import opened Runs
  import opened Refinement
  import Histories
  import History
  import Theorems
  import Utf8

  /** All turns are over, all their messages are published, and the reader waits for bytes. */
  predicate Quiet(s: State, name: StreamName) {
    && !s.crashed && s.shell.pc.Listening?
    && s.iopub.life.Alive? && s.iopub.hand.None? && s.queue == [] && !BusReady(s, s.iopub.seen)
    && StreamOf(s, name).pc.Reading? && StreamOf(s, name).buf == [] && StreamOf(s, name).unread == []
  }

  /** A process that a cell left behind writes one byte. */
  lemma WriteOne(s: State, name: StreamName) returns (t: State)
    requires Reachable(s) && Quiet(s, name) && s.log.executes != []
    ensures Reachable(t) && t == Apply(s, Write(name, |s.log.executes|, [0x41])) && !t.crashed
    ensures StreamOf(t, name) == StreamOf(s, name).(unread := StreamOf(t, name).unread,
                                                    written := StreamOf(t, name).written)
    ensures StreamOf(t, name).unread == [] + Tag([0x41], |s.log.executes|)
    ensures t.shell == s.shell && t.iopub == s.iopub && t.queue == s.queue
    ensures t.bus == s.bus && t.control == s.control && t.log == s.log
  {
    var write := Write(name, |s.log.executes|, [0x41]);
    ReachableStep(s, write);
    t := Apply(s, write);
  }

  /** It writes, and the reader turns that into a text. */
  lemma WriteAndRead(s: State, name: StreamName) returns (t: State)
    requires Reachable(s) && Quiet(s, name) && s.log.executes != []
    ensures Reachable(t) && !t.crashed && t.shell == s.shell && t.iopub == s.iopub && t.queue == s.queue
    ensures t.bus == s.bus && t.control == s.control && t.log == s.log
    ensures StreamOf(t, name).pc.Decoded? && StreamOf(t, name).pc.text == "A"
    ensures StreamOf(t, name).parent == StreamOf(s, name).parent
  {
    var u := WriteOne(s, name);
    OneByte(StreamOf(u, name).unread, |s.log.executes|);
    var read := ReaderDo(name, Read(1));
    ReachableStep(u, read);
    t := Apply(u, read);
  }

  lemma OneByte(bytes: seq<Tagged>, cell: nat)
    requires bytes == [] + Tag([0x41], cell)
    ensures |bytes| == 1 && Utf8.Decode(Untag([] + bytes[..1])) == Some("A")
  {
    assert Untag([] + bytes[..1]) == [0x41];
    assert [0x41][1..] == [];
    assert Utf8.DecodeFirst([0x41]) == Some(('A', 1));
    assert ['A'] + "" == "A";
  }

  /** The reader takes the pair and posts; the iopub task publishes. */
  lemma PostAndPublish(s: State, name: StreamName) returns (t: State, pub: Pub)
    requires Reachable(s) && !s.crashed && StreamOf(s, name).pc.Decoded?
    requires s.iopub.life.Alive? && s.iopub.hand.None? && s.queue == [] && !BusReady(s, s.iopub.seen)
    ensures Reachable(t) && t.shell == s.shell && t.log == s.log.(published := s.log.published + [pub])
    ensures pub.content == Stream(name, StreamOf(s, name).pc.text)
    ensures pub.parentHeader == StreamOf(s, name).parent
  {
    pub := MintStream(s, name, StreamOf(s, name));
    ReachableStep(s, ReaderDo(name, Attribute));
    var a := Apply(s, ReaderDo(name, Attribute));
    ReachableStep(a, ReaderDo(name, Post));
    var b := Apply(a, ReaderDo(name, Post));
    assert b.queue == [pub];
    ReachableStep(b, IopubDo(Take));
    var c := Apply(b, IopubDo(Take));
    ReachableStep(c, IopubDo(Put));
    t := Apply(c, IopubDo(Put));
  }

  /** From every quiet state after a cell, a text of that cell can still be published behind its idle status. */
  lemma StreamAfterIdle(s: State, name: StreamName) returns (t: State, pub: Pub)
    requires Reachable(s) && Quiet(s, name) && s.log.executes != []
    ensures Reachable(t) && t.shell == s.shell && t.log == s.log.(published := s.log.published + [pub])
    ensures pub.content == Stream(name, "A")
    ensures pub.parentHeader == Some(s.log.executes[|s.log.executes| - 1].header)
  {
    var u := WriteAndRead(s, name);
    t, pub := PostAndPublish(u, name);
    AlwaysKept(s, name);
  }

  /** Quiet states after a cell are reached. */
  lemma QuietAfterCell(initial: seq<Decl>, session: string, clock: string, m: Request, name: StreamName)
      returns (s: State)
    requires m.header.msgType == "execute_request" && m.content.Execute?
    ensures Reachable(s) && Quiet(s, name) && s.log.executes == [m]
  {
    var turns := [Executed(m, Ran([], [], Nothing))];
    s := Histories.EveryHistoryHappens(initial, session, clock, turns);
    AlwaysExecutes(s);
    assert ExecutesOf(turns) == ExecutesOf(turns[..0]) + [m] == [m];
    assert Histories.Quiet(StreamOf(s, name));
  }

  // ----- exactly when a text is late -----

  /** The parents of the idle statuses, in order. */
  function IdleParents(outs: seq<Bare<Iopub>>): seq<Option<Header>> {
    if outs == [] then []
    else
      var last := outs[|outs| - 1];
      IdleParents(outs[..|outs| - 1]) + if History.IsIdle(last) then [last.parentHeader] else []
  }

  function HeadersOf(requests: seq<Request>): seq<Option<Header>> {
    seq(|requests|, i requires 0 <= i < |requests| => Some(requests[i].header))
  }

  lemma {:induction false} IdleParentsPlus(a: seq<Bare<Iopub>>, b: seq<Bare<Iopub>>)
    ensures IdleParents(a + b) == IdleParents(a) + IdleParents(b)
    decreases |b|
  {
    if b == [] {
      assert a + b == a;
    } else {
      var c := b[..|b| - 1];
      assert (a + b)[..|a + b| - 1] == a + c;
      IdleParentsPlus(a, c);
    }
  }

  lemma {:induction false} NoIdleParents(outs: seq<Bare<Iopub>>)
    requires History.NoIdle(outs)
    ensures IdleParents(outs) == []
  {
    if outs != [] {
      NoIdleParents(outs[..|outs| - 1]);
    }
  }

  lemma BlockIdles(s: Session, turn: Turn)
    ensures IdleParents(Block(s, turn)) == if turn.Restarted? then [] else [Some(turn.m.header)]
  {
    History.BlockEndsIdle(s, turn);
    var b := Block(s, turn);
    if b != [] {
      NoIdleParents(b[..|b| - 1]);
    }
  }

  lemma HeadersPlus(requests: seq<Request>, m: Request)
    ensures HeadersOf(requests + [m]) == HeadersOf(requests) + [Some(m.header)]
  {
  }

  /** The idle statuses of a history answer its requests, one each and in order. */
  lemma {:induction false} TranscriptIdles(initial: seq<Decl>, turns: seq<Turn>)
    ensures IdleParents(Transcript(initial, turns)) == HeadersOf(Requests(turns))
  {
    if turns != [] {
      var before, last := turns[..|turns| - 1], turns[|turns| - 1];
      TranscriptIdles(initial, before);
      BlockIdles(After(initial, before), last);
      IdleParentsPlus(Transcript(initial, before), Block(After(initial, before), last));
      if !last.Restarted? {
        HeadersPlus(Requests(before), last.m);
      }
    }
  }

  /** In every reachable state, the idle statuses that entered the queue answer the requests of the completed
      turns, one each and in order. */
  lemma IdlesAnswerInOrder(s: State)
    requires Reachable(s)
    ensures IdleParents(Bares(Pipeline(s))) == HeadersOf(Requests(s.log.turns))
    ensures Requests(s.log.turns) <= s.log.accepted
  {
    Theorems.EnteredHasNoIdle(s);
    Theorems.RequestsParts(s);
    TranscriptIdles(s.initial, s.log.turns);
    IdleParentsPlus(Transcript(s.initial, s.log.turns), Theorems.Entered(s));
    NoIdleParents(Theorems.Entered(s));
  }

  /** The execute requests among some requests. */
  function ExecutesAmong(requests: seq<Request>): seq<Request> {
    if requests == [] then []
    else
      var last := requests[|requests| - 1];
      ExecutesAmong(requests[..|requests| - 1]) + if last.content.Execute? then [last] else []
  }

  /** The position, from 1, of the k-th execute request among all requests. */
  function NumberOf(requests: seq<Request>, k: nat): (n: nat)
    requires 1 <= k <= |ExecutesAmong(requests)|
    ensures 1 <= n <= |requests| && requests[n - 1] == ExecutesAmong(requests)[k - 1]
  {
    var before := requests[..|requests| - 1];
    if k <= |ExecutesAmong(before)| then NumberOf(before, k) else |requests|
  }

  lemma AmongPlus(requests: seq<Request>, m: Request)
    ensures ExecutesAmong(requests + [m]) == ExecutesAmong(requests) + if m.content.Execute? then [m] else []
  {
    assert (requests + [m])[..|requests|] == requests;
  }

  lemma {:induction false} ExecutesOfRequests(turns: seq<Turn>)
    requires History.TurnsFit(turns)
    ensures ExecutesAmong(Requests(turns)) == ExecutesOf(turns)
  {
    if turns != [] {
      var before, last := turns[..|turns| - 1], turns[|turns| - 1];
      ExecutesOfRequests(before);
      if last.Restarted? {
        assert Requests(turns) == Requests(before);
      } else {
        AmongPlus(Requests(before), last.m);
      }
    }
  }

  /** Of all but the last request, exactly the k-th execute requests that are among them come that early. */
  lemma NumberWithin(done: seq<Request>, current: seq<Request>, k: nat)
    requires |current| <= 1 && 1 <= k <= |ExecutesAmong(done + current)|
    ensures NumberOf(done + current, k) <= |done| <==> k <= |ExecutesAmong(done)|
  {
    if current == [] {
      assert done + current == done;
    } else {
      assert (done + current)[..|done + current| - 1] == done;
    }
  }

  /** The requests in progress: those of the completed turns, and the one being served. */
  function Serving(s: State): seq<Request> {
    if IsBusy(s.shell.pc) then [s.shell.pc.m] else []
  }

  lemma ExecutesAreAccepted(s: State)
    requires Reachable(s)
    ensures s.log.accepted == Requests(s.log.turns) + Serving(s)
    ensures ExecutesAmong(Requests(s.log.turns)) == ExecutesOf(s.log.turns)
    ensures ExecutesOf(s.log.turns) <= s.log.executes <= ExecutesAmong(s.log.accepted)
  {
    Theorems.RequestsParts(s);
    AlwaysExecutes(s);
    ExecutesOfRequests(s.log.turns);
    if IsBusy(s.shell.pc) {
      AmongPlus(Requests(s.log.turns), s.shell.pc.m);
    } else {
      assert Requests(s.log.turns) + [] == Requests(s.log.turns);
    }
  }

  /** A text that waits to be posted is attributed to an execute request that has begun. */
  lemma PostedForARequest(s: State, name: StreamName)
    requires Reachable(s) && StreamOf(s, name).pc.Posting?
    ensures var pc := StreamOf(s, name).pc;
            && 1 <= pc.cell <= |s.log.executes|
            && pc.pub.content.Stream? && pc.pub.parentHeader == Some(s.log.executes[pc.cell - 1].header)
  {
    AlwaysKept(s, name);
    var pc := StreamOf(s, name).pc;
    assert pc.bytes != [] && 1 <= pc.bytes[0].cell <= pc.cell;
  }

  /** The idle status of the k-th execute request is among those that entered the queue. */
  predicate IdleEntered(s: State, k: nat)
    requires 1 <= k <= |ExecutesAmong(s.log.accepted)|
  {
    NumberOf(s.log.accepted, k) <= |IdleParents(Bares(Pipeline(s)))|
  }

  lemma PostAppends(s: State, name: StreamName)
    requires Enabled(s, ReaderDo(name, Post)) && s.iopub.life.Alive?
    ensures StreamOf(s, name).pc.Posting?
    ensures Pipeline(Apply(s, ReaderDo(name, Post))) == Pipeline(s) + [StreamOf(s, name).pc.pub]
  {
    Refinement.PipelineOffer(s, Apply(s, ReaderDo(name, Post)), StreamOf(s, name).pc.pub);
  }

  /** The idle status of the k-th execute request has entered the queue exactly if that request is one of a
      completed turn, not the one being served. */
  lemma IdleEnteredIff(s: State, k: nat)
    requires Reachable(s) && 1 <= k <= |ExecutesAmong(s.log.accepted)|
    ensures IdleEntered(s, k) <==> k <= |ExecutesOf(s.log.turns)|
  {
    ExecutesAreAccepted(s);
    IdlesAnswerInOrder(s);
    NumberWithin(Requests(s.log.turns), Serving(s), k);
  }

  lemma NumberOfExecute(s: State, k: nat)
    requires Reachable(s) && 1 <= k <= |s.log.executes|
    ensures k <= |ExecutesAmong(s.log.accepted)|
    ensures s.log.accepted[NumberOf(s.log.accepted, k) - 1] == s.log.executes[k - 1]
  {
    ExecutesAreAccepted(s);
  }

  /** A text enters the queue behind everything that is there. That is behind the idle status of the request it
      names exactly if that request is one of a completed turn. */
  lemma TextIsLateIff(s: State, name: StreamName)
    requires Reachable(s) && Enabled(s, ReaderDo(name, Post)) && s.iopub.life.Alive?
    ensures var t, pc := Apply(s, ReaderDo(name, Post)), StreamOf(s, name).pc;
            && Pipeline(t) == Pipeline(s) + [pc.pub]
            && 1 <= pc.cell <= |ExecutesAmong(s.log.accepted)|
            && pc.pub.parentHeader == Some(s.log.accepted[NumberOf(s.log.accepted, pc.cell) - 1].header)
            && (IdleEntered(s, pc.cell) <==> pc.cell <= |ExecutesOf(s.log.turns)|)
  {
    PostAppends(s, name);
    PostedForARequest(s, name);
    NumberOfExecute(s, StreamOf(s, name).pc.cell);
    IdleEnteredIff(s, StreamOf(s, name).pc.cell);
  }
}
