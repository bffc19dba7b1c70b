/**
 * The fixed-offset ASCII payloads exchanged between the dongles: the
 * server's status responses and acknowledgement, the button client's
 * serial status line, the buttons-matrix command token, and the decoders
 * that find a tag byte with strchr and read the value a fixed distance
 * after it.
 */
module WireCodec {
  import opened Wrappers
  import opened CStrings

  /** The wifi and presence booleans the server stores and the clients cache. */
  datatype Status = Status(wifi: bool, presence: bool)

  /** The four relay bits r1..r4 of the power strip. */
  datatype Relays = Relays(r1: bool, r2: bool, r3: bool, r4: bool)

  /** Relay `n` of four (1-based). */
  function Relay(r: Relays, n: nat): bool
    requires 1 <= n <= 4
  {
    match n
    case 1 => r.r1
    case 2 => r.r2
    case 3 => r.r3
    case 4 => r.r4
  }

  /** The acknowledgement token of the commands resource. */
  const ACK_TOKEN: seq<char> := "CMD:OK"

  /** The ASCII digit a boolean is sent as. */
  function Digit(b: bool): char {
    if b then '1' else '0'
  }

  // ---- Encoders ----------------------------------------------------------

  /** Payload of the `wifi` resource: "wifi:1" or "wifi:0" and its NUL. */
  function WifiPayload(wifi: bool): seq<char> {
    "wifi:" + [Digit(wifi)] + [NUL]
  }

  /** Payload of the `presence` resource: "prs:1" or "prs:0" and its NUL. */
  function PresencePayload(presence: bool): seq<char> {
    "prs:" + [Digit(presence)] + [NUL]
  }

  /** Payload of the aggregate `ressources` resource: wifi first, then presence. */
  function RessourcesPayload(s: Status): seq<char> {
    "wifi:" + [Digit(s.wifi)] + " prs:" + [Digit(s.presence)] + [NUL]
  }

  /** Payload of every reply of the `commands` resource. */
  function AckPayload(): seq<char> {
    ACK_TOKEN + [NUL]
  }

  /** The 11 bytes between the delimiters of the button client's status line. */
  function StatusFrame(s: Status): seq<char> {
    "wifi:" + [Digit(s.wifi)] + "prs:" + [Digit(s.presence)]
  }

  /** The framed status line the button client writes to its serial port, NUL included. */
  function StatusLine(s: Status): seq<char> {
    "~" + StatusFrame(s) + "#" + [NUL]
  }

  /**
   * The buttons-matrix command token "CMD" followed by `'0' + n`, where the
   * sum is stored into one byte and so wraps modulo 256.
   */
  function CommandPayload(n: nat): seq<char> {
    "CMD" + [((n + '0' as int) % 256) as char]
  }

  /** The power-strip layout " outlet:" followed by the digits of r1..r4 at offsets 8..11. */
  function OutletPayload(r: Relays): seq<char> {
    " outlet:" + [Digit(r.r1), Digit(r.r2), Digit(r.r3), Digit(r.r4)]
  }

  // ---- Decoders ----------------------------------------------------------

  /**
   * Locate the first `tag` of the C string and read the byte `distance`
   * places after it: '1' means true, anything else false; no tag, no value.
   */
  function DecodeField(payload: seq<char>, tag: char, distance: nat): Option<bool>
    requires tag != NUL
  {
    match FindChar(payload, tag)
    case None => None
    case Some(i) => Some(At(payload, i + distance) == '1')
  }

  /** The wifi value: five bytes after the first 'w'. */
  function DecodeWifi(payload: seq<char>): Option<bool> {
    DecodeField(payload, 'w', 5)
  }

  /** The presence value: four bytes after the first 'p'. */
  function DecodePresence(payload: seq<char>): Option<bool> {
    DecodeField(payload, 'p', 4)
  }

  /** A status payload written over a cached status: each field found replaces its value. */
  function ApplyStatus(s: Status, payload: seq<char>): Status {
    Status(DecodeWifi(payload).GetOr(s.wifi), DecodePresence(payload).GetOr(s.presence))
  }

  /**
   * The relay bits of a power-strip payload: when it holds an 'o', the bytes
   * at the absolute offsets 8, 9, 10 and 11 (not offsets from the 'o').
   */
  function DecodeOutlets(payload: seq<char>): Option<Relays> {
    match FindChar(payload, 'o')
    case None => None
    case Some(_) =>
      Some(Relays(At(payload, 8) == '1', At(payload, 9) == '1',
                  At(payload, 10) == '1', At(payload, 11) == '1'))
  }

  /** The acknowledgement check: "CMD:OK" occurs in the C string of the reply. */
  predicate IsAck(payload: seq<char>) {
    ContainsCStr(payload, ACK_TOKEN)
  }

  // ---- Round trips -------------------------------------------------------

  lemma DigitReads(b: bool)
    ensures (Digit(b) == '1') == b
    ensures Digit(b) !in {NUL, 'w', 'p', 'o'}
  {
  }

  /** The aggregate payload decodes to exactly the status it was built from. */
  lemma RessourcesRoundTrip(s: Status, cached: Status)
    ensures DecodeWifi(RessourcesPayload(s)) == Some(s.wifi)
    ensures DecodePresence(RessourcesPayload(s)) == Some(s.presence)
    ensures ApplyStatus(cached, RessourcesPayload(s)) == s
  {
    RessourcesWifi(s);
    RessourcesPresence(s);
  }

  lemma RessourcesWifi(s: Status)
    ensures DecodeWifi(RessourcesPayload(s)) == Some(s.wifi)
  {
    var m := RessourcesPayload(s);
    DigitReads(s.wifi);
    assert FindChar(m, 'w') == Some(0);
    assert m[5] == Digit(s.wifi);
  }

  lemma RessourcesPresence(s: Status)
    ensures DecodePresence(RessourcesPayload(s)) == Some(s.presence)
  {
    var m := RessourcesPayload(s);
    DigitReads(s.wifi);
    DigitReads(s.presence);
    assert m[..7] == "wifi:" + [Digit(s.wifi)] + " ";
    FindCharAt(m, 7, 'p');
    assert m[11] == Digit(s.presence);
  }

  /** The wifi payload sets the wifi value and leaves presence as it was. */
  lemma WifiRoundTrip(w: bool, cached: Status)
    ensures DecodeWifi(WifiPayload(w)) == Some(w)
    ensures DecodePresence(WifiPayload(w)) == None
    ensures ApplyStatus(cached, WifiPayload(w)) == Status(w, cached.presence)
  {
    var m := WifiPayload(w);
    DigitReads(w);
    assert FindChar(m, 'w') == Some(0);
    assert m[5] == Digit(w);
    FindCharAbsent(m, 'p');
  }

  /** The presence payload sets presence and leaves wifi as it was. */
  lemma PresenceRoundTrip(p: bool, cached: Status)
    ensures DecodeWifi(PresencePayload(p)) == None
    ensures DecodePresence(PresencePayload(p)) == Some(p)
    ensures ApplyStatus(cached, PresencePayload(p)) == Status(cached.wifi, p)
  {
    var m := PresencePayload(p);
    DigitReads(p);
    FindCharAbsent(m, 'w');
    assert FindChar(m, 'p') == Some(0);
    assert m[4] == Digit(p);
  }

  /**
   * The status line is 14 bytes with the two digits at indices 6 and 11,
   * and the frame between its delimiters, kept whole, decodes back to the status.
   */
  lemma StatusLineRoundTrip(s: Status, cached: Status)
    ensures |StatusLine(s)| == 14
    ensures StatusLine(s)[6] == Digit(s.wifi) && StatusLine(s)[11] == Digit(s.presence)
    ensures StatusLine(s)[0] == '~' && StatusLine(s)[12] == '#'
    ensures ApplyStatus(cached, StatusLine(s)[1..12]) == s
  {
    StatusLineLayout(s);
    StatusFrameDecodes(s, cached);
  }

  /** The status line is '~', the status frame, '#' and NUL. */
  lemma StatusLineLayout(s: Status)
    ensures |StatusFrame(s)| == 11
    ensures StatusFrame(s)[5] == Digit(s.wifi) && StatusFrame(s)[10] == Digit(s.presence)
    ensures |StatusLine(s)| == 14 && StatusLine(s)[1..12] == StatusFrame(s)
    ensures StatusLine(s)[6] == Digit(s.wifi) && StatusLine(s)[11] == Digit(s.presence)
    ensures StatusLine(s)[0] == '~' && StatusLine(s)[12] == '#' && StatusLine(s)[13] == NUL
  {
    var f := StatusFrame(s);
    var line := StatusLine(s);
    assert line == ['~'] + f + ['#', NUL];
  }

  /** The status frame decodes to exactly the status it was built from. */
  lemma StatusFrameDecodes(s: Status, cached: Status)
    ensures ApplyStatus(cached, StatusFrame(s)) == s
  {
    StatusFrameWifi(s);
    StatusFramePresence(s);
  }

  lemma StatusFrameWifi(s: Status)
    ensures DecodeWifi(StatusFrame(s)) == Some(s.wifi)
  {
    var f := StatusFrame(s);
    DigitReads(s.wifi);
    FindCharAt(f, 0, 'w');
    assert f[5] == Digit(s.wifi);
  }

  lemma StatusFramePresence(s: Status)
    ensures DecodePresence(StatusFrame(s)) == Some(s.presence)
  {
    var f := StatusFrame(s);
    DigitReads(s.wifi);
    DigitReads(s.presence);
    assert f[..6] == "wifi:" + [Digit(s.wifi)];
    FindCharAt(f, 6, 'p');
    assert f[10] == Digit(s.presence);
  }

  /** Any " outlet:" payload decodes its four digits, '1' as on and every other byte as off. */
  lemma OutletDigits(d1: char, d2: char, d3: char, d4: char)
    ensures DecodeOutlets(" outlet:" + [d1, d2, d3, d4]) ==
            Some(Relays(d1 == '1', d2 == '1', d3 == '1', d4 == '1'))
  {
    FindCharAt(" outlet:" + [d1, d2, d3, d4], 1, 'o');
  }

  /** The outlet layout decodes to exactly the relay bits it encodes. */
  lemma OutletsRoundTrip(r: Relays)
    ensures DecodeOutlets(OutletPayload(r)) == Some(r)
  {
    OutletDigits(Digit(r.r1), Digit(r.r2), Digit(r.r3), Digit(r.r4));
    DigitReads(r.r1);
    DigitReads(r.r2);
    DigitReads(r.r3);
    DigitReads(r.r4);
  }

  /**
   * The outlet decoder reads absolute offsets: without the leading space
   * every digit is read one place late, and r4 falls past the end.
   */
  lemma OutletsOffsetsAreAbsolute()
    ensures DecodeOutlets("outlet:1111") == Some(Relays(true, true, true, false))
  {
    FindCharAt("outlet:1111", 0, 'o');
  }

  /** The server's acknowledgement passes the clients' ack check. */
  lemma AckRecognised()
    ensures IsAck(AckPayload())
  {
    ContainsPrefix(ACK_TOKEN, [NUL]);
  }

  /** For a single decimal digit the command token is "CMD" and that digit. */
  lemma CommandPayloadDigit(n: nat)
    requires n <= 9
    ensures |CommandPayload(n)| == 4 && CommandPayload(n)[..3] == "CMD"
    ensures '0' <= CommandPayload(n)[3] <= '9'
    ensures CommandPayload(n)[3] as int - '0' as int == n
  {
  }

  /** Decoding a frame padded with NUL bytes is decoding the frame. */
  lemma DecodeIgnoresPadding(cached: Status, frame: seq<char>, n: nat)
    ensures ApplyStatus(cached, frame + Zeros(n)) == ApplyStatus(cached, frame)
  {
    DecodeFieldPadded(frame, n, 'w', 5);
    DecodeFieldPadded(frame, n, 'p', 4);
  }

  /** A field read past the end of the frame reads NUL, as does one read in its padding. */
  lemma DecodeFieldPadded(frame: seq<char>, n: nat, tag: char, distance: nat)
    requires tag != NUL
    ensures DecodeField(frame + Zeros(n), tag, distance) == DecodeField(frame, tag, distance)
  {
    var m := frame + Zeros(n);
    FindCharPadded(frame, n, tag);
    if FindChar(frame, tag).Some? {
      var i := FindChar(frame, tag).value + distance;
      if |frame| <= i < |m| {
        assert m[i] == Zeros(n)[i - |frame|];
      }
    }
  }
}
