/**
 * The serial frame decoder shared by the server, the button client and the
 * legacy client: '~' clears the frame buffer, '#' ends the frame, and any
 * other byte is appended. The source does not bound the append; this model
 * drops a byte that arrives when the buffer is already full.
 */
module Framing {
  import opened Wrappers
  import opened CStrings
  import opened WireCodec

  /** Capacity of `rx_msg_buf`. */
  const MSG_MAX_SIZE: nat := 10
  const START_CHAR: char := '~'
  const END_CHAR: char := '#'

  /** A frame the buffer can hold: within capacity and free of delimiters. */
  predicate WellFormed(frame: seq<char>) {
    |frame| <= MSG_MAX_SIZE && START_CHAR !in frame && END_CHAR !in frame
  }

  /** The effect of one byte: the frame afterwards, and the frame handed on at '#'. */
  datatype Fed = Fed(frame: seq<char>, emitted: Option<seq<char>>)

  /** One byte of the stream, with the drop-when-full policy. */
  function Step(frame: seq<char>, c: char): Fed {
    if c == START_CHAR then Fed([], None)
    else if c == END_CHAR then Fed(frame, Some(frame))
    else if |frame| < MSG_MAX_SIZE then Fed(frame + [c], None)
    else Fed(frame, None)
  }

  /** The frames handed on by one step, as a sequence of zero or one frame. */
  function Emitted(e: Option<seq<char>>): seq<seq<char>> {
    match e
    case None => []
    case Some(f) => [f]
  }

  /** A stream position: the frame being collected and every frame handed on so far, in order. */
  datatype Decoded = Decoded(frame: seq<char>, frames: seq<seq<char>>)

  /** Feeding `bytes` one at a time, from the frame `frame`. */
  function Run(frame: seq<char>, bytes: seq<char>): Decoded
    decreases |bytes|
  {
    if bytes == [] then Decoded(frame, [])
    else
      var d := Run(frame, bytes[..|bytes| - 1]);
      var st := Step(d.frame, bytes[|bytes| - 1]);
      Decoded(st.frame, d.frames + Emitted(st.emitted))
  }

  /** Feeding one more byte is one more step. */
  lemma RunSnoc(frame: seq<char>, bytes: seq<char>, c: char)
    ensures var d := Run(frame, bytes);
            var st := Step(d.frame, c);
            Run(frame, bytes + [c]) == Decoded(st.frame, d.frames + Emitted(st.emitted))
  {
    assert (bytes + [c])[..|bytes|] == bytes;
  }

  /** Feeding `a` and then `b` is feeding `a + b`: where a chunk boundary falls does not matter. */
  lemma {:induction false} RunConcat(frame: seq<char>, a: seq<char>, b: seq<char>)
    ensures Run(frame, a + b) ==
            Decoded(Run(Run(frame, a).frame, b).frame,
                    Run(frame, a).frames + Run(Run(frame, a).frame, b).frames)
    decreases |b|
  {
    if b == [] {
      assert a + b == a;
    } else {
      var b' := b[..|b| - 1];
      assert (a + b)[..|a + b| - 1] == a + b';
      assert (a + b)[|a + b| - 1] == b[|b| - 1];
      RunConcat(frame, a, b');
      var da := Run(frame, a);
      var db' := Run(da.frame, b');
      var st := Step(db'.frame, b[|b| - 1]);
      assert da.frames + db'.frames + Emitted(st.emitted) == da.frames + (db'.frames + Emitted(st.emitted));
    }
  }

  /** The buffer never holds a delimiter or more than MSG_MAX_SIZE bytes, and neither does an emitted frame. */
  lemma {:induction false} RunWithinBuffer(frame: seq<char>, bytes: seq<char>)
    requires WellFormed(frame)
    ensures WellFormed(Run(frame, bytes).frame)
    ensures forall k :: 0 <= k < |Run(frame, bytes).frames| ==> WellFormed(Run(frame, bytes).frames[k])
    decreases |bytes|
  {
    if bytes != [] {
      RunWithinBuffer(frame, bytes[..|bytes| - 1]);
    }
  }

  /** '#' hands on the frame collected so far and keeps it. */
  lemma EndEmits(frame: seq<char>, bytes: seq<char>)
    ensures Run(frame, bytes + [END_CHAR]) ==
            Decoded(Run(frame, bytes).frame, Run(frame, bytes).frames + [Run(frame, bytes).frame])
  {
    assert (bytes + [END_CHAR])[..|bytes|] == bytes;
  }

  /** After a '~', a delimiter-free stream that fits the buffer is the frame, whatever came before. */
  lemma StartThenCollect(frame: seq<char>, a: seq<char>)
    requires WellFormed(a)
    ensures Run(frame, [START_CHAR] + a) == Decoded(a, [])
  {
    Collects(a);
    RunAfterStart(frame, a);
  }

  /** A whole frame "~a#" hands on `a` and leaves it in the buffer. */
  lemma OneFrame(frame: seq<char>, a: seq<char>)
    requires WellFormed(a)
    ensures Run(frame, [START_CHAR] + a + [END_CHAR]) == Decoded(a, [a])
  {
    StartThenCollect(frame, a);
    EndEmits(frame, [START_CHAR] + a);
  }

  /** '#' hands on what came since the last '~': two frames in a row are handed on in order. */
  lemma TwoFrames(a: seq<char>, b: seq<char>)
    requires WellFormed(a) && WellFormed(b)
    ensures Run([], [START_CHAR] + a + [END_CHAR] + [START_CHAR] + b + [END_CHAR]).frames == [a, b]
  {
    var x := [START_CHAR] + a + [END_CHAR];
    var y := [START_CHAR] + b + [END_CHAR];
    assert [START_CHAR] + a + [END_CHAR] + [START_CHAR] + b + [END_CHAR] == x + y;
    OneFrame([], a);
    OneFrame(a, b);
    FramesInOrder(x, y, a, b);
  }

  /** Two chunks that each hand on one frame hand on both, in order. */
  lemma FramesInOrder(x: seq<char>, y: seq<char>, a: seq<char>, b: seq<char>)
    requires Run([], x) == Decoded(a, [a]) && Run(a, y) == Decoded(b, [b])
    ensures Run([], x + y).frames == [a, b]
  {
    RunConcat([], x, y);
  }

  /** A '~' discards the partial frame before it. */
  lemma Restart(a: seq<char>, b: seq<char>)
    requires WellFormed(a) && WellFormed(b)
    ensures Run([], [START_CHAR] + a + [START_CHAR] + b + [END_CHAR]).frames == [b]
  {
    var x := [START_CHAR] + a;
    var y := [START_CHAR] + b;
    assert [START_CHAR] + a + [START_CHAR] + b + [END_CHAR] == (x + y) + [END_CHAR];
    StartThenCollect([], a);
    StartThenCollect(a, b);
    PartialThenFrame(x, y, a, b);
  }

  /** A chunk that hands on nothing, then one that restarts and collects `b`, then '#', hands on `b` alone. */
  lemma PartialThenFrame(x: seq<char>, y: seq<char>, a: seq<char>, b: seq<char>)
    requires Run([], x) == Decoded(a, []) && Run(a, y) == Decoded(b, [])
    ensures Run([], (x + y) + [END_CHAR]).frames == [b]
  {
    RunConcat([], x, y);
    EndEmits([], x + y);
  }

  /** Feeding "~ABC#~DE#" hands on "ABC" then "DE"; feeding "~AB~CD#" hands on only "CD". */
  lemma FramingExamples()
    ensures Run([], "~ABC#~DE#").frames == ["ABC", "DE"]
    ensures Run([], "~AB~CD#").frames == ["CD"]
  {
    TwoFrames("ABC", "DE");
    assert "~ABC#~DE#" == [START_CHAR] + "ABC" + [END_CHAR] + [START_CHAR] + "DE" + [END_CHAR];
    Restart("AB", "CD");
    assert "~AB~CD#" == [START_CHAR] + "AB" + [START_CHAR] + "CD" + [END_CHAR];
  }

  // ---- The append as the source writes it --------------------------------

  /** One byte with the unbounded append of the source: the frame may outgrow the buffer. */
  function StepUnchecked(frame: seq<char>, c: char): Fed {
    if c == START_CHAR then Fed([], None)
    else if c == END_CHAR then Fed(frame, Some(frame))
    else Fed(frame + [c], None)
  }

  function RunUnchecked(frame: seq<char>, bytes: seq<char>): Decoded
    decreases |bytes|
  {
    if bytes == [] then Decoded(frame, [])
    else
      var d := RunUnchecked(frame, bytes[..|bytes| - 1]);
      var st := StepUnchecked(d.frame, bytes[|bytes| - 1]);
      Decoded(st.frame, d.frames + Emitted(st.emitted))
  }

  /**
   * The status line of the button client carries 11 bytes between its
   * delimiters; with the unbounded append the eleventh is stored at index
   * 10 == MSG_MAX_SIZE, one past the end of `rx_msg_buf`.
   */
  lemma StatusLineOverrunsBuffer(s: Status)
    ensures |RunUnchecked([], StatusLine(s)[..12]).frame| == MSG_MAX_SIZE + 1
  {
    var f := StatusFrame(s);
    StatusLineLayout(s);
    assert StatusLine(s)[..12] == [START_CHAR] + f;
    StatusFrameDelimiterFree(s);
    UncheckedFrame(f);
  }

  /** The digits of a status frame are never delimiters. */
  lemma StatusFrameDelimiterFree(s: Status)
    ensures START_CHAR !in StatusFrame(s) && END_CHAR !in StatusFrame(s)
  {
  }

  /** Under the unchecked append, '~' and a delimiter-free stream leave that stream as the frame. */
  lemma UncheckedFrame(f: seq<char>)
    requires START_CHAR !in f && END_CHAR !in f
    ensures RunUnchecked([], [START_CHAR] + f).frame == f
  {
    UncheckedCollects(f);
    RunUncheckedAfterStart(f);
  }

  /** Under the unchecked append a delimiter-free stream is collected whole. */
  lemma {:induction false} UncheckedCollects(bytes: seq<char>)
    requires START_CHAR !in bytes && END_CHAR !in bytes
    ensures RunUnchecked([], bytes).frame == bytes
    decreases |bytes|
  {
    if bytes != [] {
      UncheckedCollects(bytes[..|bytes| - 1]);
      assert bytes[..|bytes| - 1] + [bytes[|bytes| - 1]] == bytes;
    }
  }

  /** A leading '~' starts an empty frame, so the frame after it is collected from []. */
  lemma {:induction false} RunUncheckedAfterStart(bytes: seq<char>)
    ensures RunUnchecked([], [START_CHAR] + bytes).frame == RunUnchecked([], bytes).frame
    decreases |bytes|
  {
    if bytes != [] {
      var b' := bytes[..|bytes| - 1];
      assert ([START_CHAR] + bytes)[..|bytes|] == [START_CHAR] + b';
      RunUncheckedAfterStart(b');
    }
  }

  /** A full buffer drops the next byte, and '#' then hands on the full frame. */
  lemma FullFrameDropsByte(p: seq<char>, d: char)
    requires START_CHAR !in p && END_CHAR !in p && |p| == MSG_MAX_SIZE
    requires d != START_CHAR && d != END_CHAR
    ensures Run([], [START_CHAR] + p + [d, END_CHAR]).frames == [p]
  {
    var x := [START_CHAR] + p + [d];
    assert [START_CHAR] + p + [d, END_CHAR] == x + [END_CHAR];
    assert x[..|x| - 1] == [START_CHAR] + p;
    Collects(p);
    RunAfterStart([], p);
    EndEmits([], x);
  }

  /**
   * With the drop-when-full policy the status line keeps its first 10
   * payload bytes: the presence digit is lost.
   */
  lemma StatusLineTruncated(s: Status)
    ensures StatusLine(s)[1..11] == "wifi:" + [Digit(s.wifi)] + "prs:"
    ensures Run([], StatusLine(s)[..13]).frames == [StatusLine(s)[1..11]]
  {
    var line := StatusLine(s);
    var f := StatusFrame(s);
    StatusLineLayout(s);
    StatusFrameDelimiterFree(s);
    var p := f[..10];
    assert line[..13] == [START_CHAR] + p + [f[10], END_CHAR];
    assert line[1..11] == p;
    assert f == "wifi:" + [Digit(s.wifi)] + "prs:" + [Digit(s.presence)];
    assert p == "wifi:" + [Digit(s.wifi)] + "prs:";
    FullFrameDropsByte(p, f[10]);
  }

  /** A delimiter-free stream that fits the buffer is collected whole. */
  lemma {:induction false} Collects(bytes: seq<char>)
    requires START_CHAR !in bytes && END_CHAR !in bytes && |bytes| <= MSG_MAX_SIZE
    ensures Run([], bytes) == Decoded(bytes, [])
    decreases |bytes|
  {
    if bytes != [] {
      Collects(bytes[..|bytes| - 1]);
      assert bytes[..|bytes| - 1] + [bytes[|bytes| - 1]] == bytes;
    }
  }

  /** A '~' starts an empty frame, whatever was collected before it. */
  lemma {:induction false} RunAfterStart(frame: seq<char>, bytes: seq<char>)
    ensures Run(frame, [START_CHAR] + bytes) == Run([], bytes)
    decreases |bytes|
  {
    if bytes != [] {
      var b' := bytes[..|bytes| - 1];
      assert ([START_CHAR] + bytes)[..|bytes|] == [START_CHAR] + b';
      RunAfterStart(frame, b');
    } else {
      assert [START_CHAR] + bytes == [START_CHAR];
      assert [START_CHAR][..0] == [];
    }
  }

  // ---- The decoder state, updated in place ------------------------------

  /** `rx_msg_buf` and `rx_offset`. */
  class FrameDecoder {
    const buf: array<char>
    var offset: nat

    /** The bytes at and past the offset are NUL: cleared by '~' and never written since. */
    ghost predicate Valid()
      reads this, buf
    {
      buf.Length == MSG_MAX_SIZE && offset <= MSG_MAX_SIZE &&
      forall i :: offset <= i < MSG_MAX_SIZE ==> buf[i] == NUL
    }

    /** The frame collected so far: `rx_msg_buf[0..rx_offset)`. */
    function Frame(): seq<char>
      reads this, buf
      requires Valid()
    {
      buf[..offset]
    }

    /** The zero-initialised static buffer. */
    constructor ()
      ensures Valid() && Frame() == [] && fresh(buf)
    {
      buf := new char[MSG_MAX_SIZE](_ => NUL);
      offset := 0;
    }

    /** The whole buffer is the frame followed by NUL bytes. */
    lemma Cells()
      requires Valid()
      ensures buf[..] == Frame() + Zeros(MSG_MAX_SIZE - offset)
    {
      assert forall i :: 0 <= i < MSG_MAX_SIZE ==> buf[..][i] == (Frame() + Zeros(MSG_MAX_SIZE - offset))[i];
    }

    /**
     * `process_received_char`: the step of one byte. '~' zeroes every cell
     * and the offset; '#' hands on the frame and changes nothing; another
     * byte is stored at the offset, which grows by one, unless the buffer is full.
     */
    method ProcessReceivedChar(c: char) returns (emitted: Option<seq<char>>)
      requires Valid()
      modifies this, buf
      ensures Valid()
      ensures Fed(Frame(), emitted) == Step(old(Frame()), c)
      ensures c == START_CHAR ==> offset == 0 && forall i :: 0 <= i < MSG_MAX_SIZE ==> buf[i] == NUL
      ensures c == END_CHAR ==> offset == old(offset) && buf[..] == old(buf[..])
      ensures c != START_CHAR && c != END_CHAR && old(offset) < MSG_MAX_SIZE ==>
                offset == old(offset) + 1 && buf[old(offset)] == c &&
                forall i :: 0 <= i < MSG_MAX_SIZE && i != old(offset) ==> buf[i] == old(buf[i])
    {
      if c == START_CHAR {
        var i := 0;
        while i < MSG_MAX_SIZE
          invariant 0 <= i <= MSG_MAX_SIZE
          invariant forall j :: 0 <= j < i ==> buf[j] == NUL
        {
          buf[i] := NUL;
          i := i + 1;
        }
        offset := 0;
        return None;
      }
      if c == END_CHAR {
        return Some(buf[..offset]);
      }
      if offset < MSG_MAX_SIZE {
        buf[offset] := c;
        offset := offset + 1;
      }
      return None;
    }
  }
}
