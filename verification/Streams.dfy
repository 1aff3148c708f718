/** What every run keeps about the two streams: whose request a text answers, that no byte is
    lost, and where a text may end. */
module Streams {
  import opened Protocol
  import opened Kernel
  import Refinement
  import Utf8

  // ----- attribution -----

  /** The pair that the k-th execute request installs; the 0-th pair is the initial one. */
  function Pair(executes: seq<Request>, k: nat): (seq<Bytes>, Option<Header>)
    requires k <= |executes|
  {
    if k == 0 then ([], None) else (executes[k - 1].zmqIdentities, Some(executes[k - 1].header))
  }

  predicate TagsUpTo(bytes: seq<Tagged>, n: nat) {
    forall i :: 0 <= i < |bytes| ==> 1 <= bytes[i].cell <= n
  }

  /** The number of execute requests that have updated this stream's pair. */
  function Updated(s: State, name: StreamName): int {
    |s.log.executes| -
    if s.shell.pc.UpdatingOut? || (name == Stderr && s.shell.pc.UpdatingErr?) then 1 else 0
  }

  /** A message carries exactly the pair of one request, and no byte of a later request. */
  predicate Attributes(pub: Pub, bytes: seq<Tagged>, cell: nat, executes: seq<Request>, name: StreamName) {
    cell <= |executes| &&
    (pub.zmqIdentities, pub.parentHeader) == Pair(executes, cell) &&
    TagsUpTo(bytes, cell) &&
    pub.content.Stream? && pub.content.name == name && Utf8.Decode(Untag(bytes)) == Some(pub.content.text)
  }

  predicate ChunksOrdered(chunks: seq<Chunk>) {
    forall i, j :: 0 <= i < j < |chunks| ==> chunks[i].cell <= chunks[j].cell
  }

  /** A stream task whose pair is that of request `updated`, while only code up to `begun` has run. */
  predicate TaskAttributed(t: StreamTask, name: StreamName, executes: seq<Request>, updated: int, begun: nat) {
    && t.cell == updated <= |executes| && begun <= updated
    && (t.identities, t.parent) == Pair(executes, t.cell)
    && TagsUpTo(t.unread, begun) && TagsUpTo(t.buf, begun)
    && (t.pc.Decoded? ==> TagsUpTo(t.pc.bytes, begun) && Utf8.Decode(Untag(t.pc.bytes)) == Some(t.pc.text))
    && (t.pc.Posting? ==> t.pc.cell <= t.cell && Attributes(t.pc.pub, t.pc.bytes, t.pc.cell, executes, name))
    && (forall i :: 0 <= i < |t.chunks| ==>
          t.chunks[i].cell <= (if t.pc.Posting? then t.pc.cell else t.cell) &&
          Attributes(t.chunks[i].pub, t.chunks[i].bytes, t.chunks[i].cell, executes, name))
    && ChunksOrdered(t.chunks)
  }

  predicate Attributed(s: State, name: StreamName) {
    TaskAttributed(StreamOf(s, name), name, s.log.executes, Updated(s, name), Begun(s))
  }

  // ----- conservation -----

  function Joined(chunks: seq<Chunk>): seq<Tagged> {
    if chunks == [] then [] else Joined(chunks[..|chunks| - 1]) + chunks[|chunks| - 1].bytes
  }

  function InHand(pc: ReaderPc): seq<Tagged> {
    if pc.Reading? then [] else pc.bytes
  }

  /** A text that ended while the pipe was open did not fill its last buffer. */
  predicate ShortEnd(bytes: seq<Tagged>, open: bool) {
    bytes != [] && (open ==> |bytes| % BUFFER_SIZE != 0)
  }

  predicate TaskConserved(t: StreamTask, open: bool) {
    && t.written == Joined(t.chunks) + InHand(t.pc) + t.buf + t.unread
    && |t.buf| % BUFFER_SIZE == 0
    && (!t.pc.Reading? ==> t.buf == [] && ShortEnd(t.pc.bytes, open))
    && (forall i :: 0 <= i < |t.chunks| ==> ShortEnd(t.chunks[i].bytes, open))
  }

  /** The write ends of both pipes live as long as the shell. */
  predicate Conserved(s: State, name: StreamName) {
    TaskConserved(StreamOf(s, name), !s.shell.pc.Ended?)
  }

  // ----- order in the queue -----

  /** The messages of one stream among `pubs`. */
  function Texts(pubs: seq<Pub>, name: StreamName): seq<Pub> {
    if pubs == [] then []
    else
      var last := pubs[|pubs| - 1];
      Texts(pubs[..|pubs| - 1], name) + if last.content.Stream? && last.content.name == name then [last] else []
  }

  function Pubs(chunks: seq<Chunk>): seq<Pub> {
    seq(|chunks|, i requires 0 <= i < |chunks| => chunks[i].pub)
  }

  predicate Delivered(s: State, name: StreamName) {
    Texts(Pipeline(s), name) == Pubs(StreamOf(s, name).chunks)
  }

  // ----- one stream task -----

  lemma MoreRequests(t: StreamTask, name: StreamName, executes: seq<Request>, m: Request, updated: int, begun: nat)
    requires TaskAttributed(t, name, executes, updated, begun)
    ensures TaskAttributed(t, name, executes + [m], updated, begun)
  {
    assert forall k: nat :: k <= |executes| ==> Pair(executes + [m], k) == Pair(executes, k);
  }

  lemma MoreBegun(t: StreamTask, name: StreamName, executes: seq<Request>, updated: int, begun: nat, more: nat)
    requires TaskAttributed(t, name, executes, updated, begun) && begun <= more <= updated
    ensures TaskAttributed(t, name, executes, updated, more)
  {
  }

  lemma UpdatePair(t: StreamTask, name: StreamName, executes: seq<Request>, updated: int, begun: nat)
    requires TaskAttributed(t, name, executes, updated, begun) && executes != []
    ensures TaskAttributed(SetPair(t, executes[|executes| - 1], |executes|), name, executes, |executes|, begun)
  {
  }

  lemma MoreWritten(t: StreamTask, name: StreamName, executes: seq<Request>, updated: int, begun: nat,
                    more: seq<Tagged>, open: bool)
    requires TagsUpTo(more, begun)
    ensures var u := t.(unread := t.unread + more, written := t.written + more);
            (TaskAttributed(t, name, executes, updated, begun) ==> TaskAttributed(u, name, executes, updated, begun)) &&
            (TaskConserved(t, open) ==> TaskConserved(u, open))
  {
  }

  lemma FillAttributed(t: StreamTask, n: nat, name: StreamName, executes: seq<Request>, updated: int, begun: nat)
    requires n <= |t.unread| && TaskAttributed(t, name, executes, updated, begun)
    ensures TaskAttributed(Fill(t, n), name, executes, updated, begun)
  {
  }

  /** Moving the front of `c` to the end of `b` leaves everything in order. */
  lemma MovedOver<T>(a: seq<T>, b: seq<T>, c: seq<T>, n: nat)
    requires n <= |c|
    ensures a + b + c == a + (b + c[..n]) + c[n..]
  {
    assert c == c[..n] + c[n..];
  }

  lemma FillConserved(t: StreamTask, n: nat, open: bool)
    requires n <= |t.unread| && t.pc.Reading? && TaskConserved(t, open)
    ensures var u := Fill(t, n); u.written == Joined(u.chunks) + u.buf + u.unread
    ensures n == BUFFER_SIZE ==> TaskConserved(Fill(t, n), open)
  {
    NoneInHand(t.chunks, t.buf, t.unread);
    MovedOver(Joined(t.chunks), t.buf, t.unread, n);
    var u := Fill(t, n);
    NoneInHand(u.chunks, u.buf, u.unread);
  }

  lemma NoneInHand(chunks: seq<Chunk>, buf: seq<Tagged>, unread: seq<Tagged>)
    ensures Joined(chunks) + [] + buf + unread == Joined(chunks) + buf + unread
  {
  }

  lemma CompleteKeeps(t: StreamTask, name: StreamName, executes: seq<Request>, updated: int, begun: nat, open: bool)
    requires t.pc.Reading? && TaskAttributed(t, name, executes, updated, begun)
    requires t.written == Joined(t.chunks) + t.buf + t.unread && ShortEnd(t.buf, open)
    requires forall i :: 0 <= i < |t.chunks| ==> ShortEnd(t.chunks[i].bytes, open)
    ensures Complete(t).Some? ==>
              TaskAttributed(Complete(t).value, name, executes, updated, begun) &&
              TaskConserved(Complete(t).value, open)
  {
  }

  lemma TakePairKeeps(t: StreamTask, pub: Pub, name: StreamName, executes: seq<Request>, updated: int, begun: nat, open: bool)
    requires t.pc.Decoded? && TaskAttributed(t, name, executes, updated, begun) && TaskConserved(t, open)
    requires Strip(pub) == Bare(t.identities, t.parent, Stream(name, t.pc.text))
    ensures TaskAttributed(TakePair(t, pub), name, executes, updated, begun)
    ensures TaskConserved(TakePair(t, pub), open)
  {
  }

  lemma {:induction false} JoinedPlus(chunks: seq<Chunk>, chunk: Chunk)
    ensures Joined(chunks + [chunk]) == Joined(chunks) + chunk.bytes
  {
    assert (chunks + [chunk])[..|chunks|] == chunks;
  }

  lemma HandOverAttributed(t: StreamTask, name: StreamName, executes: seq<Request>, updated: int, begun: nat)
    requires t.pc.Posting? && TaskAttributed(t, name, executes, updated, begun)
    ensures TaskAttributed(HandOver(t), name, executes, updated, begun)
  {
  }

  lemma HandOverConserved(t: StreamTask, open: bool)
    requires t.pc.Posting? && TaskConserved(t, open)
    ensures TaskConserved(HandOver(t), open)
  {
    JoinedPlus(t.chunks, Chunk(t.pc.pub, t.pc.bytes, t.pc.cell));
    var u := HandOver(t);
    assert Joined(u.chunks) + InHand(u.pc) == Joined(u.chunks);
  }

  lemma PipeCloses(t: StreamTask)
    requires TaskConserved(t, true)
    ensures TaskConserved(t, false)
  {
  }

  /** A short read behind whole buffers ends short. */
  lemma EndsShort(a: nat, n: nat)
    requires a % BUFFER_SIZE == 0 && 1 <= n < BUFFER_SIZE
    ensures (a + n) % BUFFER_SIZE != 0
  {
  }

  lemma ShortReadKeeps(t: StreamTask, n: nat, name: StreamName,
                       executes: seq<Request>, updated: int, begun: nat, open: bool)
    requires ReaderReady(t, Read(n)) && n != BUFFER_SIZE
    requires TaskAttributed(t, name, executes, updated, begun) && TaskConserved(t, open)
    ensures var u := Complete(Fill(t, n));
            u.Some? ==> TaskAttributed(u.value, name, executes, updated, begun) && TaskConserved(u.value, open)
  {
    FillAttributed(t, n, name, executes, updated, begun);
    FillConserved(t, n, open);
    EndsShort(|t.buf|, n);
    CompleteKeeps(Fill(t, n), name, executes, updated, begun, open);
  }

  lemma ReadKeeps(t: StreamTask, n: nat, pub: Pub, name: StreamName,
                  executes: seq<Request>, updated: int, begun: nat, open: bool)
    requires ReaderReady(t, Read(n))
    requires TaskAttributed(t, name, executes, updated, begun) && TaskConserved(t, open)
    ensures var u := ReaderTask(t, Read(n), pub);
            u.Some? ==> TaskAttributed(u.value, name, executes, updated, begun) && TaskConserved(u.value, open)
  {
    if n == BUFFER_SIZE {
      FillAttributed(t, n, name, executes, updated, begun);
      FillConserved(t, n, open);
    } else {
      ShortReadKeeps(t, n, name, executes, updated, begun, open);
    }
  }

  lemma ReaderTaskKeeps(t: StreamTask, step: ReaderStep, pub: Pub, name: StreamName,
                        executes: seq<Request>, updated: int, begun: nat, open: bool)
    requires ReaderReady(t, step) && (step.ReadEnd? ==> !open)
    requires step.Attribute? ==> Strip(pub) == Bare(t.identities, t.parent, Stream(name, t.pc.text))
    requires TaskAttributed(t, name, executes, updated, begun) && TaskConserved(t, open)
    ensures var u := ReaderTask(t, step, pub);
            u.Some? ==> TaskAttributed(u.value, name, executes, updated, begun) && TaskConserved(u.value, open)
  {
    match step
    case Read(n) => ReadKeeps(t, n, pub, name, executes, updated, begun, open);
    case ReadEnd =>
      if t.buf != [] {
        CompleteKeeps(t, name, executes, updated, begun, open);
      }
    case Attribute => TakePairKeeps(t, pub, name, executes, updated, begun, open);
    case Post =>
      HandOverAttributed(t, name, executes, updated, begun);
      HandOverConserved(t, open);
  }

  // ----- both stream tasks under every step -----

  /** Attribution and conservation of one stream. */
  predicate Kept(s: State, name: StreamName) {
    Attributed(s, name) && Conserved(s, name)
  }

  /** The request being executed is the last one begun. */
  predicate ExecutesFit(s: State) {
    (s.shell.pc.UpdatingOut? || s.shell.pc.UpdatingErr?) ==>
      s.log.executes != [] && s.log.executes[|s.log.executes| - 1] == s.shell.pc.m
  }

  lemma ShellKeepsExecutes(s: State, step: ShellStep)
    requires ExecutesFit(s) && ShellEnabled(s, step)
    ensures ExecutesFit(ShellApply(s, step))
  {
  }

  /** What decides about one stream besides its own task. */
  predicate SameAround(s: State, t: State, name: StreamName) {
    t.log.executes == s.log.executes && Updated(t, name) == Updated(s, name) && Begun(t) == Begun(s) &&
    t.shell.pc.Ended? == s.shell.pc.Ended?
  }

  lemma SameTaskKept(s: State, t: State, name: StreamName)
    requires Kept(s, name) && SameAround(s, t, name) && StreamOf(t, name) == StreamOf(s, name)
    ensures Kept(t, name)
  {
  }

  lemma ExecuteKeepsStream(s: State, name: StreamName)
    requires Kept(s, name) && ShellEnabled(s, Dispatch) && s.shell.pc.m.content.Execute?
    ensures Kept(Dispatched(s), name)
  {
    MoreRequests(StreamOf(s, name), name, s.log.executes, s.shell.pc.m, Updated(s, name), Begun(s));
  }

  lemma DispatchKeepsStream(s: State, name: StreamName)
    requires Kept(s, name) && ShellEnabled(s, Dispatch)
    ensures Kept(ShellApply(s, Dispatch), name)
  {
    if s.shell.pc.m.content.Execute? {
      ExecuteKeepsStream(s, name);
    } else {
      SameTaskKept(s, ShellApply(s, Dispatch), name);
    }
  }

  /** The first update installs the pair of the request that is about to run. */
  lemma FirstUpdateKeepsStdout(s: State)
    requires Kept(s, Stdout) && ExecutesFit(s) && s.shell.pc.UpdatingOut?
    ensures Kept(Kernel.Updated(s), Stdout)
  {
    UpdatePair(s.out, Stdout, s.log.executes, Updated(s, Stdout), Begun(s));
  }

  lemma SecondUpdateKeepsStdout(s: State)
    requires Kept(s, Stdout) && s.shell.pc.UpdatingErr? && s.log.executes != []
    ensures Kept(Kernel.Updated(s), Stdout)
  {
    var n := |s.log.executes|;
    MoreBegun(s.out, Stdout, s.log.executes, n, Begun(s), n);
  }

  lemma UpdateKeepsStdout(s: State)
    requires Kept(s, Stdout) && ExecutesFit(s) && ShellEnabled(s, UpdateReply)
    ensures Kept(ShellApply(s, UpdateReply), Stdout)
  {
    if s.shell.pc.UpdatingOut? {
      FirstUpdateKeepsStdout(s);
    } else {
      SecondUpdateKeepsStdout(s);
    }
  }

  lemma FirstUpdateKeepsStderr(s: State)
    requires Kept(s, Stderr) && s.shell.pc.UpdatingOut?
    ensures Kept(Kernel.Updated(s), Stderr)
  {
  }

  lemma SecondUpdateKeepsStderr(s: State)
    requires Kept(s, Stderr) && ExecutesFit(s) && s.shell.pc.UpdatingErr?
    ensures Kept(Kernel.Updated(s), Stderr)
  {
    var n := |s.log.executes|;
    UpdatePair(s.err, Stderr, s.log.executes, Updated(s, Stderr), Begun(s));
    MoreBegun(SetPair(s.err, s.shell.pc.m, n), Stderr, s.log.executes, n, Begun(s), n);
  }

  lemma UpdateKeepsStderr(s: State)
    requires Kept(s, Stderr) && ExecutesFit(s) && ShellEnabled(s, UpdateReply)
    ensures Kept(ShellApply(s, UpdateReply), Stderr)
  {
    if s.shell.pc.UpdatingOut? {
      FirstUpdateKeepsStderr(s);
    } else {
      SecondUpdateKeepsStderr(s);
    }
  }

  lemma NoticeKeepsStream(s: State, name: StreamName)
    requires Kept(s, name) && ShellEnabled(s, Notice)
    ensures Kept(Noticed(s), name)
  {
    PipeCloses(StreamOf(s, name));
  }

  lemma ShellStepAround(s: State, step: ShellStep, name: StreamName)
    requires ShellEnabled(s, step) && !step.Notice? && !step.Dispatch? && !step.UpdateReply?
    ensures SameAround(s, ShellApply(s, step), name) && StreamOf(ShellApply(s, step), name) == StreamOf(s, name)
  {
  }

  lemma ShellKeepsStream(s: State, step: ShellStep, name: StreamName)
    requires Kept(s, name) && ExecutesFit(s) && ShellEnabled(s, step)
    ensures Kept(ShellApply(s, step), name)
  {
    match step
    case Dispatch => DispatchKeepsStream(s, name);
    case UpdateReply =>
      if name == Stdout {
        UpdateKeepsStdout(s);
      } else {
        UpdateKeepsStderr(s);
      }
    case Notice => NoticeKeepsStream(s, name);
    case _ =>
      ShellStepAround(s, step, name);
      SameTaskKept(s, ShellApply(s, step), name);
  }

  lemma ReaderKeepsStream(s: State, step: ReaderStep, name: StreamName)
    requires Kept(s, name) && ReaderEnabled(s, name, step)
    ensures Kept(ReaderApply(s, name, step), name)
  {
    var t, u := StreamOf(s, name), ReaderApply(s, name, step);
    ReaderTaskKeeps(t, step, MintStream(s, name, t), name,
                    s.log.executes, Updated(s, name), Begun(s), !s.shell.pc.Ended?);
    ReaderAround(s, step, name);
    NewTaskKept(s, u, name);
  }

  lemma ReaderAround(s: State, step: ReaderStep, name: StreamName)
    requires ReaderEnabled(s, name, step)
    ensures SameAround(s, ReaderApply(s, name, step), name)
  {
  }

  lemma ReaderKeepsOther(s: State, name: StreamName, step: ReaderStep, other: StreamName)
    requires name != other && Kept(s, other) && ReaderEnabled(s, name, step)
    ensures Kept(ReaderApply(s, name, step), other)
  {
    SameTaskKept(s, ReaderApply(s, name, step), other);
  }

  lemma NewTaskKept(s: State, t: State, name: StreamName)
    requires SameAround(s, t, name)
    requires TaskAttributed(StreamOf(t, name), name, s.log.executes, Updated(s, name), Begun(s))
    requires TaskConserved(StreamOf(t, name), !s.shell.pc.Ended?)
    ensures Kept(t, name)
  {
  }

  lemma WriteKeepsStream(s: State, step: Step, name: StreamName)
    requires Kept(s, name) && step.Write? && Enabled(s, step)
    ensures Kept(Apply(s, step), name)
  {
    if name == step.stream {
      MoreWritten(StreamOf(s, name), name, s.log.executes, Updated(s, name), Begun(s),
                  Tag(step.text, step.cell), !s.shell.pc.Ended?);
      NewTaskKept(s, Apply(s, step), name);
    } else {
      SameTaskKept(s, Apply(s, step), name);
    }
  }

  lemma OthersOnStreams(s: State, step: Step)
    requires Enabled(s, step) && !step.ShellDo? && !step.ReaderDo? && !step.Write?
    ensures var t := Apply(s, step);
            t.out == s.out && t.err == s.err && t.log.executes == s.log.executes && t.shell.pc == s.shell.pc
  {
  }

  lemma OthersKeepStream(s: State, step: Step, name: StreamName)
    requires Kept(s, name) && Enabled(s, step) && !step.ShellDo? && !step.ReaderDo? && !step.Write?
    ensures Kept(Apply(s, step), name)
  {
    OthersOnStreams(s, step);
    SameTaskKept(s, Apply(s, step), name);
  }

  /** Every step of every task keeps attribution and conservation of both streams. */
  lemma StepKeepsStream(s: State, step: Step, name: StreamName)
    requires Kept(s, name) && ExecutesFit(s) && Enabled(s, step)
    ensures Kept(Apply(s, step), name)
  {
    match step
    case ShellDo(a) => ShellKeepsStream(s, a, name);
    case ReaderDo(reader, a) =>
      if reader == name {
        ReaderKeepsStream(s, a, name);
      } else {
        ReaderKeepsOther(s, reader, a, name);
      }
    case Write(_, _, _) => WriteKeepsStream(s, step, name);
    case _ => OthersKeepStream(s, step, name);
  }

  // ----- the queue keeps the order of each stream -----

  lemma TextsPlus(pubs: seq<Pub>, pub: Pub, name: StreamName)
    ensures Texts(pubs + [pub], name) ==
            Texts(pubs, name) + if pub.content.Stream? && pub.content.name == name then [pub] else []
  {
    assert (pubs + [pub])[..|pubs|] == pubs;
  }

  lemma PubsPlus(chunks: seq<Chunk>, chunk: Chunk)
    ensures Pubs(chunks + [chunk]) == Pubs(chunks) + [chunk.pub]
  {
  }

  lemma OfferKeepsDelivered(s: State, name: StreamName)
    requires Delivered(s, name) && ShellEnabled(s, Offer) && !s.shell.pc.pub.content.Stream?
    ensures Delivered(ShellApply(s, Offer), name)
  {
    if s.iopub.life.Alive? {
      var t := ShellApply(s, Offer);
      assert Pipeline(t) == Pipeline(s) + [s.shell.pc.pub];
      TextsPlus(Pipeline(s), s.shell.pc.pub, name);
    }
  }

  lemma PostedTexts(s: State, t: State, task: StreamTask, reader: StreamName, name: StreamName)
    requires task.pc.Posting? && task.pc.pub.content.Stream? && task.pc.pub.content.name == reader
    requires Pipeline(t) == Pipeline(s) + [task.pc.pub]
    requires Texts(Pipeline(s), name) == Pubs(StreamOf(s, name).chunks)
    requires StreamOf(t, name) ==
             if name == reader then HandOver(task) else StreamOf(s, name)
    requires name == reader ==> StreamOf(s, name) == task
    ensures Delivered(t, name)
  {
    TextsPlus(Pipeline(s), task.pc.pub, name);
    PubsPlus(task.chunks, Chunk(task.pc.pub, task.pc.bytes, task.pc.cell));
  }

  lemma PostKeepsDelivered(s: State, reader: StreamName, name: StreamName)
    requires Delivered(s, name) && Attributed(s, reader) && ReaderEnabled(s, reader, Post) && s.iopub.life.Alive?
    ensures Delivered(ReaderApply(s, reader, Post), name)
  {
    var t, task := ReaderApply(s, reader, Post), StreamOf(s, reader);
    Refinement.PipelineOffer(s, t, task.pc.pub);
    PostedTexts(s, t, task, reader, name);
  }

  /** A reader that posts nothing leaves the pipeline and the record of what it posted. */
  lemma NoPostKeepsDelivered(s: State, reader: StreamName, step: ReaderStep, name: StreamName)
    requires Delivered(s, name) && ReaderEnabled(s, reader, step) && (step.Post? ==> s.iopub.life.Stopped?)
    ensures Delivered(ReaderApply(s, reader, step), name)
  {
    Refinement.SamePipeline(s, ReaderApply(s, reader, step));
  }

  lemma ReaderKeepsDelivered(s: State, reader: StreamName, step: ReaderStep, name: StreamName)
    requires Delivered(s, name) && Attributed(s, reader) && ReaderEnabled(s, reader, step)
    ensures Delivered(ReaderApply(s, reader, step), name)
  {
    if step.Post? && s.iopub.life.Alive? {
      PostKeepsDelivered(s, reader, name);
    } else {
      NoPostKeepsDelivered(s, reader, step, name);
    }
  }

  lemma IopubKeepsDelivered(s: State, step: IopubStep, name: StreamName)
    requires Delivered(s, name) && IopubEnabled(s, step)
    ensures Delivered(IopubApply(s, step), name)
  {
    Refinement.IopubKeepsPipeline(s, step);
  }

  lemma OthersKeepDelivered(s: State, step: Step, name: StreamName)
    requires Delivered(s, name) && Enabled(s, step)
    requires !step.ReaderDo? && !step.IopubDo? && step != ShellDo(Offer)
    ensures Delivered(Apply(s, step), name)
  {
    var t := Apply(s, step);
    assert Pipeline(t) == Pipeline(s);
    assert StreamOf(t, name).chunks == StreamOf(s, name).chunks;
  }

  /** Every step keeps the order of each stream: what entered the queue is what it posted. */
  lemma StepKeepsDelivered(s: State, step: Step, name: StreamName)
    requires Delivered(s, name) && Attributed(s, Stdout) && Attributed(s, Stderr) && Enabled(s, step)
    requires s.shell.pc.Sending? ==> !s.shell.pc.pub.content.Stream?
    ensures Delivered(Apply(s, step), name)
  {
    match step
    case ShellDo(Offer) => OfferKeepsDelivered(s, name);
    case IopubDo(a) => IopubKeepsDelivered(s, a, name);
    case ReaderDo(reader, a) => ReaderKeepsDelivered(s, reader, a, name);
    case _ => OthersKeepDelivered(s, step, name);
  }
}
