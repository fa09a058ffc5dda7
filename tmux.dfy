/**
 * The tmux control-mode (`tmux -CC`) domain: a byte-at-a-time line
 * assembler fed with the bytes the remote tmux writes, and the fixed
 * capability surface the domain offers to the multiplexer.
 */
module Tmux {
  import opened Wrappers

  type Byte = b: int | 0 <= b < 0x100

  const LF: Byte := 10
  const CR: Byte := 13

  type DomainIdent = nat
  type TabId = nat
  type WindowId = nat

  datatype DomainState = Attached | Detached

  /** The terminal size handed to `spawn`; the tmux domain ignores it. */
  datatype PtySize = PtySize(rows: nat, cols: nat, pixelWidth: nat, pixelHeight: nat)

  // ---------------------------------------------------------------------
  // The line assembler as a function of its input
  // ---------------------------------------------------------------------

  /** The line handed on when LF arrives: the buffer with one trailing CR removed. */
  function StripCr(buffer: seq<Byte>): (line: seq<Byte>)
    ensures |buffer| > 0 && buffer[|buffer| - 1] == CR ==> line + [CR] == buffer
    ensures !(|buffer| > 0 && buffer[|buffer| - 1] == CR) ==> line == buffer
  {
    if |buffer| > 0 && buffer[|buffer| - 1] == CR then buffer[..|buffer| - 1] else buffer
  }

  /** The partial line being assembled, and every line emitted so far, oldest first. */
  datatype DecoderState = DecoderState(buffer: seq<Byte>, lines: seq<seq<Byte>>)

  const Initial := DecoderState([], [])

  /** What one call of `advance` does to the decoder. */
  function Step(s: DecoderState, c: Byte): DecoderState
  {
    if c == LF then DecoderState([], s.lines + [StripCr(s.buffer)])
    else DecoderState(s.buffer + [c], s.lines)
  }

  /** `advance` called on every byte of `input`, first to last. */
  function Feed(s: DecoderState, input: seq<Byte>): (r: DecoderState)
    ensures LF !in s.buffer ==> LF !in r.buffer
    ensures s.lines <= r.lines
    decreases |input|
  {
    if input == [] then s else Feed(Step(s, input[0]), input[1..])
  }

  /** `advance` called on each chunk in turn, the way bytes arrive from a channel. */
  function FeedChunks(s: DecoderState, chunks: seq<seq<Byte>>): DecoderState
    decreases |chunks|
  {
    if chunks == [] then s else FeedChunks(Feed(s, chunks[0]), chunks[1..])
  }

  function Concat(chunks: seq<seq<Byte>>): seq<Byte>
    decreases |chunks|
  {
    if chunks == [] then [] else chunks[0] + Concat(chunks[1..])
  }

  // ---------------------------------------------------------------------
  // An independent description of the decoder's result: framing with LF
  // ---------------------------------------------------------------------

  predicate NoLf(s: seq<Byte>)
  {
    LF !in s
  }

  predicate AllNoLf(raw: seq<seq<Byte>>)
  {
    forall i :: 0 <= i < |raw| ==> NoLf(raw[i])
  }

  /** The byte stream that carries the LF-free lines `raw`, each ended by LF, then the unterminated `tail`. */
  function Frame(raw: seq<seq<Byte>>, tail: seq<Byte>): seq<Byte>
    decreases |raw|
  {
    if raw == [] then tail else raw[0] + [LF] + Frame(raw[1..], tail)
  }

  /** Each raw line with its trailing CR removed. */
  function Stripped(raw: seq<seq<Byte>>): (lines: seq<seq<Byte>>)
    ensures |lines| == |raw|
    ensures forall i :: 0 <= i < |raw| ==> lines[i] == StripCr(raw[i])
    decreases |raw|
  {
    if raw == [] then [] else [StripCr(raw[0])] + Stripped(raw[1..])
  }

  /** The position of the first LF in `s`. */
  function IndexOfLf(s: seq<Byte>): (i: nat)
    requires LF in s
    ensures i < |s| && s[i] == LF && NoLf(s[..i])
    decreases |s|
  {
    if s[0] == LF then 0 else 1 + IndexOfLf(s[1..])
  }

  /** The LF-terminated segments of a stream and what follows the last LF. */
  datatype Framing = Framing(raw: seq<seq<Byte>>, tail: seq<Byte>)

  /** Cuts `input` at every LF: the inverse of `Frame`. */
  function Split(input: seq<Byte>): (f: Framing)
    ensures Frame(f.raw, f.tail) == input
    ensures AllNoLf(f.raw) && NoLf(f.tail)
    decreases |input|
  {
    if LF !in input then Framing([], input)
    else
      var i := IndexOfLf(input);
      var rest := Split(input[i + 1..]);
      var f := Framing([input[..i]] + rest.raw, rest.tail);
      assert f.raw[1..] == rest.raw;
      assert input == input[..i] + [LF] + input[i + 1..];
      f
  }

  // ---------------------------------------------------------------------
  // Properties of the decoder
  // ---------------------------------------------------------------------

  /** Bytes without LF only extend the partial line and emit nothing. */
  lemma {:induction false} FeedNoLf(s: DecoderState, t: seq<Byte>)
    requires NoLf(t)
    ensures Feed(s, t) == DecoderState(s.buffer + t, s.lines)
    decreases |t|
  {
    if t != [] {
      FeedNoLf(Step(s, t[0]), t[1..]);
      assert s.buffer + [t[0]] + t[1..] == s.buffer + t;
    }
  }

  /** Feeding `a` then `b` is feeding `a + b`. */
  lemma {:induction false} FeedAppend(s: DecoderState, a: seq<Byte>, b: seq<Byte>)
    ensures Feed(s, a + b) == Feed(Feed(s, a), b)
    decreases |a|
  {
    if a == [] {
      assert a + b == b;
    } else {
      assert (a + b)[0] == a[0];
      assert (a + b)[1..] == a[1..] + b;
      FeedAppend(Step(s, a[0]), a[1..], b);
    }
  }

  /** Chunking independence: however the stream is cut into chunks, the decoder ends in the same state. */
  lemma {:induction false} FeedChunksIsFeedConcat(s: DecoderState, chunks: seq<seq<Byte>>)
    ensures FeedChunks(s, chunks) == Feed(s, Concat(chunks))
    decreases |chunks|
  {
    if chunks != [] {
      FeedChunksIsFeedConcat(Feed(s, chunks[0]), chunks[1..]);
      FeedAppend(s, chunks[0], Concat(chunks[1..]));
    }
  }

  /** One LF-free line followed by LF is emitted whole, CR-stripped, and empties the partial line. */
  lemma FeedLine(lines: seq<seq<Byte>>, line: seq<Byte>, rest: seq<Byte>)
    requires NoLf(line)
    ensures Feed(DecoderState([], lines), line + [LF] + rest)
         == Feed(DecoderState([], lines + [StripCr(line)]), rest)
  {
    var s := DecoderState([], lines);
    assert line + [LF] + rest == line + ([LF] + rest);
    FeedAppend(s, line, [LF] + rest);
    FeedNoLf(s, line);
    assert ([LF] + rest)[0] == LF && ([LF] + rest)[1..] == rest;
    assert [] + line == line;
  }

  lemma StrippedCons(lines: seq<seq<Byte>>, raw: seq<seq<Byte>>)
    requires raw != []
    ensures lines + [StripCr(raw[0])] + Stripped(raw[1..]) == lines + Stripped(raw)
  {
    assert Stripped(raw) == [StripCr(raw[0])] + Stripped(raw[1..]);
  }

  /**
   * Starting from an empty partial line, a framed stream emits its lines
   * with one trailing CR stripped from each and leaves the tail buffered.
   */
  lemma {:induction false} FeedFrame(lines: seq<seq<Byte>>, raw: seq<seq<Byte>>, tail: seq<Byte>)
    requires AllNoLf(raw) && NoLf(tail)
    ensures Feed(DecoderState([], lines), Frame(raw, tail)) == DecoderState(tail, lines + Stripped(raw))
    decreases |raw|
  {
    if raw == [] {
      FeedNoLf(DecoderState([], lines), tail);
      assert [] + tail == tail;
      assert lines + Stripped(raw) == lines;
    } else {
      var next := lines + [StripCr(raw[0])];
      assert Feed(DecoderState([], lines), Frame(raw, tail)) == Feed(DecoderState([], next), Frame(raw[1..], tail)) by {
        assert NoLf(raw[0]);
        FeedLine(lines, raw[0], Frame(raw[1..], tail));
      }
      assert AllNoLf(raw[1..]) by {
        forall i | 0 <= i < |raw[1..]| ensures NoLf(raw[1..][i]) {
          assert raw[1..][i] == raw[i + 1];
        }
      }
      FeedFrame(next, raw[1..], tail);
      StrippedCons(lines, raw);
    }
  }

  /**
   * What the decoder does with a whole stream: it emits the LF-terminated
   * segments of the input, each with one trailing CR removed, and keeps the
   * unterminated tail as its partial line.
   */
  lemma DecodeStream(input: seq<Byte>)
    ensures Feed(Initial, input) == DecoderState(Split(input).tail, Stripped(Split(input).raw))
  {
    var f := Split(input);
    FeedFrame([], f.raw, f.tail);
    assert [] + Stripped(f.raw) == Stripped(f.raw);
  }

  /** `"abc\r\n"` gives the single line `"abc"`, and `"a\r\r\n"` the single line `"a\r"`. */
  lemma CrLfExamples()
    ensures Feed(Initial, [97, 98, 99, 13, 10]) == DecoderState([], [[97, 98, 99]])
    ensures Feed(Initial, [97, 13, 13, 10]) == DecoderState([], [[97, 13]])
  {
    FeedLine([], [97, 98, 99, 13], []);
    assert [97, 98, 99, 13] + [LF] + [] == [97, 98, 99, 13, 10];
    assert StripCr([97, 98, 99, 13]) == [97, 98, 99];
    FeedLine([], [97, 13, 13], []);
    assert [97, 13, 13] + [LF] + [] == [97, 13, 13, 10];
    assert StripCr([97, 13, 13]) == [97, 13];
  }

  // ---------------------------------------------------------------------
  // The domain object
  // ---------------------------------------------------------------------

  class TmuxDomain {
    const id: DomainIdent
    const embeddingTabId: TabId
    /** The partial line received so far (a `Vec<u8>` updated in place). */
    var lineBuffer: seq<Byte>
    /** Every line completed so far, oldest first; the Rust code only logs each one. */
    ghost var emitted: seq<seq<Byte>>

    ghost predicate Valid()
      reads this
    {
      LF !in lineBuffer
    }

    ghost function Decoder(): DecoderState
      reads this
    {
      DecoderState(lineBuffer, emitted)
    }

    /** The id is supplied by the caller; the process-wide allocator is not part of this model. */
    constructor (id: DomainIdent, embeddingTabId: TabId)
      ensures Valid()
      ensures this.id == id && this.embeddingTabId == embeddingTabId
      ensures lineBuffer == [] && emitted == []
      ensures Decoder() == Initial
    {
      this.id := id;
      this.embeddingTabId := embeddingTabId;
      lineBuffer := [];
      emitted := [];
    }

    /** Processes one byte sent by the remote tmux. */
    method Advance(c: Byte)
      requires Valid()
      modifies this
      ensures Valid()
      ensures Decoder() == Step(old(Decoder()), c)
      ensures c != LF ==> lineBuffer == old(lineBuffer) + [c] && emitted == old(emitted)
      ensures c == LF ==> lineBuffer == [] && emitted == old(emitted) + [StripCr(old(lineBuffer))]
    {
      if c == LF {
        if |lineBuffer| > 0 && lineBuffer[|lineBuffer| - 1] == CR {
          lineBuffer := lineBuffer[..|lineBuffer| - 1];
        }
        emitted := emitted + [lineBuffer];
        lineBuffer := [];
      } else {
        lineBuffer := lineBuffer + [c];
      }
    }

    function DomainId(): (r: DomainIdent)
      ensures r == id
    {
      id
    }

    function DomainName(): (name: string)
      ensures name == "tmux"
    {
      "tmux"
    }

    function State(): (s: DomainState)
      ensures s == Attached
    {
      Attached
    }

    /** Re-attaching has nothing to do and always succeeds. */
    method Attach() returns (r: Result<()>)
      ensures r == Ok(())
    {
      r := Ok(());
    }

    method Detach() returns (r: Result<()>)
      ensures r == Err("detach not impl for TmuxDomain")
    {
      r := Err("detach not impl for TmuxDomain");
    }

    /** All four arguments are ignored: a tmux domain never spawns a local tab. */
    method Spawn(size: PtySize, command: Option<seq<string>>, commandDir: Option<string>, window: WindowId)
      returns (r: Result<TabId>)
      ensures r == Err("spawn not impl for TmuxDomain")
    {
      r := Err("spawn not impl for TmuxDomain");
    }
  }
}
