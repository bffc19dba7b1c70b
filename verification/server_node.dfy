/**
 * The server dongle: frames from its serial port update the stored wifi and
 * presence status; commands received over CoAP go out on the serial port;
 * the connection LED follows the Thread role.
 */
module ServerNode {
  import opened Wrappers
  import opened CStrings
  import opened WireCodec
  import opened Framing
  import opened Mesh
  import opened ServerCoap

  /** The store after decoding `frames` in order, starting from `s`. */
  function Absorb(s: Status, frames: seq<seq<char>>): Status
    decreases |frames|
  {
    if frames == [] then s
    else ApplyStatus(Absorb(s, frames[..|frames| - 1]), frames[|frames| - 1])
  }

  /** Decoding one more emitted frame applies it to the store; no frame, no change. */
  lemma AbsorbEmitted(s: Status, frames: seq<seq<char>>, e: Option<seq<char>>)
    ensures Absorb(s, frames + Emitted(e)) ==
            match e
            case None => Absorb(s, frames)
            case Some(f) => ApplyStatus(Absorb(s, frames), f)
  {
    if e.None? {
      assert frames + Emitted(e) == frames;
    } else {
      assert (frames + [e.value])[..|frames|] == frames;
    }
  }

  /** Decoding `a` and then `b` is decoding `a + b`. */
  lemma {:induction false} AbsorbConcat(s: Status, a: seq<seq<char>>, b: seq<seq<char>>)
    ensures Absorb(s, a + b) == Absorb(Absorb(s, a), b)
    decreases |b|
  {
    if b == [] {
      assert a + b == a;
    } else {
      assert (a + b)[..|a + b| - 1] == a + b[..|b| - 1];
      assert (a + b)[|a + b| - 1] == b[|b| - 1];
      AbsorbConcat(s, a, b[..|b| - 1]);
    }
  }

  /**
   * The serial stream drives the store: feeding a chunk `a` and then a
   * chunk `b` leaves the same frame and the same store as feeding `a + b`,
   * so the split of the stream into chunks does not matter.
   */
  lemma ChunkingIrrelevant(s: Status, frame: seq<char>, a: seq<char>, b: seq<char>)
    ensures var da := Run(frame, a);
            var db := Run(da.frame, b);
            Run(frame, a + b).frame == db.frame &&
            Absorb(s, Run(frame, a + b).frames) == Absorb(Absorb(s, da.frames), db.frames)
  {
    RunConcat(frame, a, b);
    AbsorbConcat(s, Run(frame, a).frames, Run(Run(frame, a).frame, b).frames);
  }

  /**
   * Bytes past the frame are the zeroes '~' left, so a tag whose value
   * position lies beyond the frame decodes as false.
   */
  lemma ValueBeyondFrameIsFalse(frame: seq<char>, n: nat, tag: char, distance: nat)
    requires tag != NUL
    requires FindChar(frame, tag).Some? && FindChar(frame, tag).value + distance >= |frame|
    ensures DecodeField(frame + Zeros(n), tag, distance) == Some(false)
  {
    FindCharPadded(frame, n, tag);
    var k := FindChar(frame, tag).value + distance;
    if k < |frame| + n {
      assert (frame + Zeros(n))[k] == Zeros(n)[k - |frame|];
    }
  }

  /**
   * Under the drop-when-full policy a status line as the button dongle
   * writes it reaches the store with its wifi digit, while the presence
   * digit, the eleventh payload byte, is dropped and presence reads false.
   */
  lemma StatusLineLosesPresence(s: Status, cached: Status)
    ensures Absorb(cached, Run([], StatusLine(s)[..13]).frames) == Status(s.wifi, false)
  {
    var f := StatusLine(s)[1..11];
    StatusLineTruncated(s);
    assert [f][..0] == [];
    TruncatedFrameDecodes(s.wifi, cached);
  }

  /** The line cut after "prs:" decodes its wifi digit and reads presence as false. */
  lemma TruncatedFrameDecodes(wifi: bool, cached: Status)
    ensures ApplyStatus(cached, "wifi:" + [Digit(wifi)] + "prs:") == Status(wifi, false)
  {
    TruncatedWifi(wifi);
    TruncatedPresence(wifi);
  }

  lemma TruncatedWifi(wifi: bool)
    ensures DecodeWifi("wifi:" + [Digit(wifi)] + "prs:") == Some(wifi)
  {
    var f := "wifi:" + [Digit(wifi)] + "prs:";
    DigitReads(wifi);
    assert FindChar(f, 'w') == Some(0);
    assert f[5] == Digit(wifi);
  }

  lemma TruncatedPresence(wifi: bool)
    ensures DecodePresence("wifi:" + [Digit(wifi)] + "prs:") == Some(false)
  {
    var pre := "wifi:" + [Digit(wifi)];
    var f := "wifi:" + [Digit(wifi)] + "prs:";
    assert f == pre + "prs:";
    DigitReads(wifi);
    FindCharSkips(pre, "prs:", 'p');
    assert FindChar(f, 'p') == Some(6);
    assert At(f, 10) == NUL;
  }

  /** The server dongle's state: the serial decoder, the CoAP context and the connection LED. */
  class Server {
    const decoder: FrameDecoder
    const context: ServerContext
    /** OT_CONNECTION_LED */
    var connectionLed: bool

    ghost predicate Valid()
      reads this, decoder, decoder.buf, context
    {
      decoder.Valid() && context.Valid()
    }

    constructor ()
      ensures Valid() && fresh(decoder) && fresh(decoder.buf) && fresh(context) && fresh(context.msgBuf)
      ensures decoder.Frame() == [] && context.Status() == Status(false, false) && !connectionLed
    {
      decoder := new FrameDecoder();
      context := new ServerContext.Init();
      connectionLed := false;
    }

    /**
     * `process_received_char` of the server: the decoder step, and on '#'
     * the frame decoded into the store; a tag that is missing leaves its
     * status as it was.
     */
    method ProcessReceivedChar(c: char)
      requires Valid()
      modifies decoder, decoder.buf, context
      ensures Valid()
      ensures decoder.Frame() == Step(old(decoder.Frame()), c).frame
      ensures context.Status() ==
                if c == END_CHAR then ApplyStatus(old(context.Status()), old(decoder.Frame()))
                else old(context.Status())
      ensures context.msgLen == old(context.msgLen)
    {
      var frame := decoder.Frame();
      var _ := decoder.ProcessReceivedChar(c);
      if c == END_CHAR {
        DecodeFrame(frame);
      }
    }

    /** On '#': the buffer, the frame followed by NUL bytes, is decoded into the store. */
    method DecodeFrame(ghost frame: seq<char>)
      requires Valid() && decoder.Frame() == frame
      modifies context
      ensures Valid()
      ensures context.Status() == ApplyStatus(old(context.Status()), frame)
      ensures context.msgLen == old(context.msgLen)
    {
      decoder.Cells();
      DecodeIgnoresPadding(context.Status(), frame, MSG_MAX_SIZE - decoder.offset);
      DecodeBuffer(decoder.buf[..]);
    }

    /** The '#' branch: strchr for each tag over the whole buffer, and the value read after it. */
    method DecodeBuffer(buf: seq<char>)
      requires Valid()
      modifies context
      ensures Valid()
      ensures context.Status() == ApplyStatus(old(context.Status()), buf)
      ensures context.msgLen == old(context.msgLen)
    {
      var w := FindChar(buf, 'w');
      if w.Some? {
        context.SetWifiStatus(At(buf, w.value + 5) == '1');
      }
      var p := FindChar(buf, 'p');
      if p.Some? {
        context.SetPresenceStatus(At(buf, p.value + 4) == '1');
      }
    }

    /** `on_uart_message`: the bytes of a received chunk, one at a time, in order. */
    method OnUartMessage(chunk: seq<char>)
      requires Valid()
      modifies decoder, decoder.buf, context
      ensures Valid()
      ensures decoder.Frame() == Run(old(decoder.Frame()), chunk).frame
      ensures context.Status() == Absorb(old(context.Status()), Run(old(decoder.Frame()), chunk).frames)
      ensures context.msgLen == old(context.msgLen)
    {
      var i := 0;
      while i < |chunk|
        invariant 0 <= i <= |chunk|
        invariant Valid()
        invariant decoder.Frame() == Run(old(decoder.Frame()), chunk[..i]).frame
        invariant context.Status() == Absorb(old(context.Status()), Run(old(decoder.Frame()), chunk[..i]).frames)
        invariant context.msgLen == old(context.msgLen)
      {
        ghost var d := Run(old(decoder.Frame()), chunk[..i]);
        ghost var st := Step(d.frame, chunk[i]);
        assert chunk[..i + 1] == chunk[..i] + [chunk[i]];
        RunSnoc(old(decoder.Frame()), chunk[..i], chunk[i]);
        AbsorbEmitted(old(context.Status()), d.frames, st.emitted);
        ProcessReceivedChar(chunk[i]);
        i := i + 1;
      }
      assert chunk[..|chunk|] == chunk;
    }

    /**
     * A commands request: the handler's outcome, and the bytes the commands
     * callback writes to the serial port: the first `msg_len` bytes of the buffer.
     */
    method CommandsRequest(req: Incoming, sent: bool) returns (h: Handled, tx: Option<seq<char>>)
      requires Valid()
      modifies context, context.msgBuf
      ensures Valid()
      ensures h == HandleCommands(req, sent)
      ensures tx.Some? <==> h.callback.Some?
      ensures tx.Some? ==> h.callback.value.len <= |h.callback.value.msg| && tx.value == Forwarded(h.callback.value)
      ensures context.Status() == old(context.Status())
    {
      h := context.CommandsRequestHandler(req, sent);
      tx := None;
      if h.callback.Some? {
        var len := context.msgLen % 256;
        tx := Some(context.msgBuf[..len]);
        assert context.msgBuf[..context.msgLen][..len] == context.msgBuf[..len];
      }
    }

    /** `on_thread_state_changed`: on a role change the LED is on exactly for an attached role. */
    method OnThreadStateChanged(roleChanged: bool, role: Role)
      modifies this
      ensures connectionLed == if roleChanged then Attached(role) else old(connectionLed)
    {
      if roleChanged {
        match role
        case Child | Router | Leader => connectionLed := true;
        case Disabled | Detached => connectionLed := false;
      }
    }
  }
}
