/** When a stream is cut inside a code point, and what that does. */
module Cuts {
  import opened Protocol
  import opened Kernel
  import opened Streams
  import opened Theorems
  import opened Runs
  import Histories
  import Utf8

  lemma MiddleDecodesIffBoundary(done: Bytes, buf: Bytes, rest: Bytes)
    requires Utf8.Decode(done).Some? && Utf8.Decode(done + buf + rest).Some?
    ensures Utf8.Decode(buf).Some? <==> Utf8.IsBoundary(done + buf + rest, |done| + |buf|)
  {
    Utf8.CutIsValidIffBoundary(done + buf, rest);
    Utf8.DecodeAppend(done, buf);
  }

  lemma Regroup(a: Bytes, b: Bytes, c: Bytes, d: Bytes)
    ensures (a + b + c) + d == a + b + (c + d)
  {
  }

  lemma UntagParts(a: seq<Tagged>, b: seq<Tagged>, c: seq<Tagged>)
    ensures Untag(a + b + c) == Untag(a) + Untag(b) + Untag(c)
  {
    UntagPlus(a + b, c);
    UntagPlus(a, b);
  }

  /** A read of `n` bytes stops inside a code point of the stream, of which `more` is still to be written. */
  predicate StopsInside(t: StreamTask, n: nat, more: Bytes) {
    var at := |Joined(t.chunks)| + |t.buf| + n;
    at <= |t.written| && !Utf8.IsBoundary(Untag(t.written) + more, at)
  }

  /** Ending a text cuts the stream: that fails exactly when the cut is inside a code point. */
  lemma CompleteUnlessInside(t: StreamTask, more: Bytes)
    requires t.written == Joined(t.chunks) + t.buf + t.unread
    requires Utf8.Decode(Untag(t.written) + more).Some? && Utf8.Decode(Untag(Joined(t.chunks))).Some?
    ensures Complete(t).None? <==> StopsInside(t, 0, more)
  {
    var done, buf, unread := Untag(Joined(t.chunks)), Untag(t.buf), Untag(t.unread);
    UntagParts(Joined(t.chunks), t.buf, t.unread);
    Regroup(done, buf, unread, more);
    MiddleDecodesIffBoundary(done, buf, unread + more);
  }

  lemma FillSplits(t: StreamTask, n: nat)
    requires n <= |t.unread| && t.written == Joined(t.chunks) + t.buf + t.unread
    ensures var u := Fill(t, n); u.written == Joined(u.chunks) + u.buf + u.unread
  {
    MovedOver(Joined(t.chunks), t.buf, t.unread, n);
  }

  lemma FillStops(t: StreamTask, n: nat, more: Bytes)
    requires n <= |t.unread|
    ensures StopsInside(Fill(t, n), 0, more) <==> StopsInside(t, n, more)
  {
  }

  /** The same for a read of `n` bytes that ends a text. */
  lemma CutOfRead(t: StreamTask, n: nat, more: Bytes)
    requires n <= |t.unread| && t.written == Joined(t.chunks) + t.buf + t.unread
    requires Utf8.Decode(Untag(t.written) + more).Some? && Utf8.Decode(Untag(Joined(t.chunks))).Some?
    ensures Complete(Fill(t, n)).None? <==> StopsInside(t, n, more)
  {
    FillSplits(t, n);
    CompleteUnlessInside(Fill(t, n), more);
    FillStops(t, n, more);
  }

  lemma ReadReads(s: State, name: StreamName, n: nat)
    requires Enabled(s, ReaderDo(name, Read(n)))
    ensures StreamOf(s, name).pc.Reading? && n <= |StreamOf(s, name).unread|
  {
  }

  lemma ReadCrashes(s: State, name: StreamName, n: nat)
    requires Enabled(s, ReaderDo(name, Read(n))) && n != BUFFER_SIZE
    ensures ReaderApply(s, name, Read(n)).crashed <==> Complete(Fill(StreamOf(s, name), n)).None?
  {
  }

  lemma ReadingConserved(s: State, name: StreamName)
    requires Reachable(s) && StreamOf(s, name).pc.Reading?
    ensures var t := StreamOf(s, name);
            t.written == Joined(t.chunks) + t.buf + t.unread && Utf8.Decode(Untag(Joined(t.chunks))).Some?
  {
    StreamConservation(s, name);
    StreamTexts(s, name);
    var t := StreamOf(s, name);
    assert Joined(t.chunks) + [] + t.buf == Joined(t.chunks) + t.buf;
  }

  /** Whatever the writer still adds to make its bytes valid, a read that ends a text aborts the process
      exactly when it stops inside a code point of the whole. */
  lemma CutAborts(s: State, name: StreamName, n: nat, more: Bytes)
    requires Reachable(s) && Enabled(s, ReaderDo(name, Read(n))) && n != BUFFER_SIZE
    requires Utf8.Decode(Untag(StreamOf(s, name).written) + more).Some?
    ensures ReaderApply(s, name, Read(n)).crashed <==> StopsInside(StreamOf(s, name), n, more)
  {
    var t := StreamOf(s, name);
    ReadReads(s, name, n);
    ReadingConserved(s, name);
    CutOfRead(t, n, more);
    ReadCrashes(s, name, n);
  }

  /** The bytes from the last posted text to where a read of `n` more bytes ends. */
  function TextOf(t: StreamTask, n: nat): Bytes
    requires n <= |t.unread|
  {
    Untag(t.buf + t.unread[..n])
  }

  lemma CompletesIff(t: StreamTask)
    requires Utf8.Decode(Untag(Joined(t.chunks))).Some?
    ensures Complete(t).None? <==> Utf8.Decode(Untag(Joined(t.chunks)) + Untag(t.buf)).None?
  {
    Utf8.DecodeAppend(Untag(Joined(t.chunks)), Untag(t.buf));
  }

  /** Whatever was written and may still be written, a read that ends a text aborts the process exactly when the
      stream up to there is not valid UTF-8. */
  lemma ReadAborts(s: State, name: StreamName, n: nat)
    requires Reachable(s) && Enabled(s, ReaderDo(name, Read(n))) && n != BUFFER_SIZE
    ensures n <= |StreamOf(s, name).unread|
    ensures var t := StreamOf(s, name);
            ReaderApply(s, name, Read(n)).crashed <==>
            Utf8.Decode(Untag(Joined(t.chunks)) + TextOf(t, n)).None?
  {
    ReadReads(s, name, n);
    ReadingConserved(s, name);
    CompletesIff(Fill(StreamOf(s, name), n));
    ReadCrashes(s, name, n);
  }

  lemma EndCrashes(s: State, name: StreamName)
    requires Enabled(s, ReaderDo(name, ReadEnd))
    ensures StreamOf(s, name).pc.Reading?
    ensures ReaderApply(s, name, ReadEnd).crashed <==>
            StreamOf(s, name).buf == [] || Complete(StreamOf(s, name)).None?
  {
  }

  /** At the end of the pipe the process aborts exactly when nothing is pending, or the whole stream is not
      valid UTF-8. */
  lemma EndAborts(s: State, name: StreamName)
    requires Reachable(s) && Enabled(s, ReaderDo(name, ReadEnd))
    ensures var t := StreamOf(s, name);
            ReaderApply(s, name, ReadEnd).crashed <==> t.buf == [] || Utf8.Decode(Untag(t.written)).None?
  {
    var t := StreamOf(s, name);
    EndCrashes(s, name);
    ReadingConserved(s, name);
    CompletesIff(t);
    WrittenAtEnd(t);
  }

  lemma WrittenAtEnd(t: StreamTask)
    requires t.written == Joined(t.chunks) + t.buf + t.unread && t.unread == []
    ensures Untag(t.written) == Untag(Joined(t.chunks)) + Untag(t.buf)
  {
    assert t.written == Joined(t.chunks) + t.buf;
    UntagPlus(Joined(t.chunks), t.buf);
  }

  // ----- a read that aborts -----

  lemma HalfIsInvalid()
    ensures Utf8.Decode([0xC3]).None?
  {
    assert Utf8.DecodeFirst([0xC3]).None?;
  }

  /** The two bytes together are one character, so the stream itself is valid UTF-8. */
  lemma WholeIsValid()
    ensures Utf8.Decode([0xC3] + [0xA9]) == Some("\U{00E9}")
  {
    Utf8.DecodeEncode("\U{00E9}");
    assert Utf8.Encode("\U{00E9}") == Utf8.EncodeChar('\U{00E9}') + Utf8.Encode("");
    assert [0xC3] + [0xA9] == Utf8.Encode("\U{00E9}");
  }

  /** A cell writes the first byte of a two-byte character; the read that finds only that byte aborts. */
  lemma HalfCharacterAborts(initial: seq<Session.Decl>, session: string, clock: string, m: Request)
      returns (s: State)
    requires m.header.msgType == "execute_request" && m.content.Execute?
    ensures Reachable(s) && !s.crashed && Untag(s.out.written) == [0xC3]
    ensures Utf8.Decode(Untag(s.out.written) + [0xA9]) == Some("\U{00E9}")
    ensures Enabled(s, ReaderDo(Stdout, Read(1))) && Apply(s, ReaderDo(Stdout, Read(1))).crashed
  {
    var cell := Histories.FirstCell(initial, session, clock, m);
    s := Follow(cell, Write(Stdout, 1, [0xC3]));
    var t := s.out;
    assert t.unread == [Tagged(0xC3, 1)] && t.written == [Tagged(0xC3, 1)];
    assert Untag(t.written) == [0xC3];
    assert Untag(Fill(t, 1).buf) == [0xC3];
    HalfIsInvalid();
    WholeIsValid();
    ReadCrashes(s, Stdout, 1);
  }
}
