/** The reader thread of one stream: nested loops over a pipe, with a fixed read buffer. */
module Reader {
  import opened Protocol
  import opened Kernel
  import Utf8

  /** The read end of a pipe: the bytes that no read has returned yet. */
  class Pipe {
    var unread: seq<Byte>
    var closed: bool

    constructor (bytes: seq<Byte>, closed: bool)
      ensures unread == bytes && this.closed == closed
    {
      unread := bytes;
      this.closed := closed;
    }

    /** `read` blocks on an open empty pipe, returns 0 on a closed one, and else between one byte
        and a whole buffer, however many it likes. */
    method Read(buffer: array<Byte>) returns (n: nat)
      requires buffer.Length > 0 && (unread != [] || closed)
      modifies this`unread, buffer
      ensures n <= buffer.Length && n <= |old(unread)|
      ensures n == 0 <==> old(unread) == []
      ensures buffer[..n] == old(unread)[..n] && unread == old(unread)[n..]
    {
      n := 0;
      if unread != [] {
        n :| 1 <= n <= buffer.Length && n <= |unread|;
        forall i | 0 <= i < n {
          buffer[i] := unread[i];
        }
        unread := unread[n..];
      }
    }
  }

  /** How the inner loop ends: with the bytes of one text, waiting for more, or on a dead stream. */
  datatype Ending = Text | Blocked | Dead

  function Flat(texts: seq<Bytes>): Bytes {
    if texts == [] then [] else Flat(texts[..|texts| - 1]) + texts[|texts| - 1]
  }

  lemma FlatPlus(texts: seq<Bytes>, text: Bytes)
    ensures Flat(texts + [text]) == Flat(texts) + text
  {
    assert (texts + [text])[..|texts|] == texts;
  }

  class StreamReader {
    const pipe: Pipe
    const readBuf: array<Byte>

    constructor (pipe: Pipe)
      ensures this.pipe == pipe && fresh(readBuf) && readBuf.Length == BUFFER_SIZE
    {
      this.pipe := pipe;
      readBuf := new Byte[BUFFER_SIZE](_ => 0);
    }

    /** The inner loop: a full buffer goes on, a shorter read ends the text. */
    method ReadText() returns (sBuf: Bytes, ending: Ending)
      requires readBuf.Length == BUFFER_SIZE
      modifies pipe`unread, readBuf
      ensures old(pipe.unread) == sBuf + pipe.unread
      ensures ending.Text? ==> sBuf != [] && (|sBuf| % BUFFER_SIZE == 0 ==> pipe.closed && pipe.unread == [])
      ensures ending.Blocked? ==> |sBuf| % BUFFER_SIZE == 0 && pipe.unread == [] && !pipe.closed
      ensures ending.Dead? ==> sBuf == [] && pipe.unread == [] && pipe.closed
    {
      sBuf := [];
      ending := Blocked;
      while pipe.unread != [] || pipe.closed
        invariant old(pipe.unread) == sBuf + pipe.unread
        invariant |sBuf| % BUFFER_SIZE == 0
        decreases |pipe.unread|
      {
        ghost var before := pipe.unread;
        var n := pipe.Read(readBuf);
        assert before == before[..n] + before[n..];
        if n == 0 {
          ending := if sBuf == [] then Dead else Text;
          return;
        }
        sBuf := sBuf + readBuf[..n];
        if n != BUFFER_SIZE {
          ending := Text;
          return;
        }
      }
    }

    /** The outer loop until it blocks, its stream dies, or a text is not valid UTF-8: what was
        emitted, what is pending and what is unread are the bytes of the pipe, in order. */
    method Run() returns (texts: seq<string>, pending: Bytes, aborted: bool, ghost cuts: seq<Bytes>)
      requires readBuf.Length == BUFFER_SIZE
      modifies pipe`unread, readBuf
      ensures old(pipe.unread) == Flat(cuts) + pending + pipe.unread
      ensures AreTexts(cuts, texts) && EndShort(cuts, pipe.closed && pipe.unread == [])
      ensures if aborted then (pending == [] && pipe.closed && pipe.unread == []) || Utf8.Decode(pending).None?
              else |pending| % BUFFER_SIZE == 0 && pipe.unread == [] && !pipe.closed
    {
      texts, aborted, cuts, pending := [], false, [], [];
      while true
        invariant old(pipe.unread) == Flat(cuts) + pipe.unread
        invariant AreTexts(cuts, texts) && EndShort(cuts, pipe.closed && pipe.unread == [])
        decreases |pipe.unread|
      {
        ghost var before := pipe.unread;
        var sBuf, ending := ReadText();
        ReadOn(old(pipe.unread), cuts, before, sBuf, pipe.unread);
        pending := sBuf;
        match ending {
          case Blocked => return;
          case Dead => aborted := true; return;
          case Text =>
            var text := Utf8.Decode(sBuf);
            if text.None? {
              aborted := true;
              return;
            }
            texts := texts + [text.value];
            cuts := cuts + [sBuf];
        }
      }
    }
  }

  /** The texts are the decoded cuts. */
  predicate AreTexts(cuts: seq<Bytes>, texts: seq<string>) {
    |texts| == |cuts| && forall i :: 0 <= i < |texts| ==> Utf8.Decode(cuts[i]) == Some(texts[i])
  }

  /** Every cut ends in a buffer that is not full, but for the last one of a stream that has ended. */
  predicate EndShort(cuts: seq<Bytes>, ended: bool) {
    forall i :: 0 <= i < |cuts| ==> cuts[i] != [] && (|cuts[i]| % BUFFER_SIZE == 0 ==> ended && i == |cuts| - 1)
  }

  lemma ReadOn(all: Bytes, cuts: seq<Bytes>, before: Bytes, text: Bytes, after: Bytes)
    requires all == Flat(cuts) + before && before == text + after
    ensures all == Flat(cuts + [text]) + after && all == Flat(cuts) + text + after
  {
    FlatPlus(cuts, text);
  }
}
