/** Waiting for the backend's start acknowledgement, and the nonce it must carry. */
module Handshake {
  import opened Wrappers
  import opened BackendLoop

  /** Unicode `White_Space`, which `str::trim` removes at both ends. */
  predicate IsSpace(c: char) {
    || '\U{9}' <= c <= '\U{D}' || c == ' ' || c == '\U{85}' || c == '\U{A0}' || c == '\U{1680}'
    || '\U{2000}' <= c <= '\U{200A}' || c == '\U{2028}' || c == '\U{2029}' || c == '\U{202F}'
    || c == '\U{205F}' || c == '\U{3000}'
  }

  function TrimStart(s: string): string {
    if s != [] && IsSpace(s[0]) then TrimStart(s[1..]) else s
  }

  function TrimEnd(s: string): string {
    if s != [] && IsSpace(s[|s| - 1]) then TrimEnd(s[..|s| - 1]) else s
  }

  function Trim(s: string): string {
    TrimEnd(TrimStart(s))
  }

  /** `i` and `j` cut off the white space at both ends, and no more. */
  predicate TrimmedAt(s: string, i: nat, j: nat) {
    && i <= j <= |s|
    && (forall k :: 0 <= k < i ==> IsSpace(s[k])) && (forall k :: j <= k < |s| ==> IsSpace(s[k]))
    && (i < j ==> !IsSpace(s[i]) && !IsSpace(s[j - 1]))
  }

  lemma {:induction false} TrimStartMeans(s: string) returns (i: nat)
    ensures i <= |s| && TrimStart(s) == s[i..]
    ensures (forall k :: 0 <= k < i ==> IsSpace(s[k])) && (i < |s| ==> !IsSpace(s[i]))
  {
    if s != [] && IsSpace(s[0]) {
      var n := TrimStartMeans(s[1..]);
      i := n + 1;
      forall k | 0 <= k < i ensures IsSpace(s[k]) {
        assert k > 0 ==> s[k] == s[1..][k - 1];
      }
    } else {
      i := 0;
    }
  }

  lemma {:induction false} TrimEndMeans(s: string) returns (j: nat)
    ensures j <= |s| && TrimEnd(s) == s[..j]
    ensures (forall k :: j <= k < |s| ==> IsSpace(s[k])) && (j > 0 ==> !IsSpace(s[j - 1]))
  {
    if s != [] && IsSpace(s[|s| - 1]) {
      j := TrimEndMeans(s[..|s| - 1]);
    } else {
      j := |s|;
    }
  }

  /** Trimming leaves what is between the first and the last character that is no white space. */
  lemma TrimMeans(s: string) returns (i: nat, j: nat)
    ensures TrimmedAt(s, i, j) && Trim(s) == s[i..j]
  {
    i := TrimStartMeans(s);
    var n := TrimEndMeans(s[i..]);
    j := i + n;
    assert forall k :: i <= k < |s| ==> s[k] == s[i..][k - i];
    assert s[i..][..n] == s[i..j];
  }

  function HexValue(c: char): Option<nat> {
    if '0' <= c <= '9' then Some((c - '0') as nat)
    else if 'a' <= c <= 'f' then Some((c - 'a') as nat + 10)
    else if 'A' <= c <= 'F' then Some((c - 'A') as nat + 10)
    else None
  }

  function HexDecode(s: string): Option<seq<nat>> {
    if s == [] then Some([])
    else if |s| == 1 then None
    else
      match (HexValue(s[0]), HexValue(s[1]), HexDecode(s[2..]))
      case (Some(hi), Some(lo), Some(rest)) => Some([16 * hi + lo] + rest)
      case _ => None
  }

  /** A digit stands for its place in the row of digits, in either case. */
  lemma HexValueMeans(c: char, v: nat)
    ensures HexValue(c) == Some(v) <==> v < 16 && (c == "0123456789abcdef"[v] || c == "0123456789ABCDEF"[v])
  {
  }

  predicate AllHex(s: string) {
    forall i :: 0 <= i < |s| ==> HexValue(s[i]).Some?
  }

  /** Byte `i` is written by digits `2 * i` and `2 * i + 1`, the high half first. */
  predicate IsByteAt(s: string, i: nat, byte: nat)
    requires 2 * i + 1 < |s|
  {
    HexValue(s[2 * i]).Some? && HexValue(s[2 * i + 1]).Some?
    && byte == 16 * HexValue(s[2 * i]).value + HexValue(s[2 * i + 1]).value
  }

  /** Decoding succeeds exactly on an even number of hexadecimal digits, two to a byte. */
  lemma {:induction false} HexDecodes(s: string)
    ensures HexDecode(s).Some? <==> AllHex(s) && |s| % 2 == 0
    ensures HexDecode(s).Some? ==>
              && 2 * |HexDecode(s).value| == |s|
              && forall i :: 0 <= i < |HexDecode(s).value| ==> HexDecode(s).value[i] < 256
  {
    if |s| >= 2 {
      HexDecodes(s[2..]);
      if AllHex(s[2..]) && HexValue(s[0]).Some? && HexValue(s[1]).Some? {
        forall i | 0 <= i < |s| ensures HexValue(s[i]).Some? {
          if i >= 2 { assert s[i] == s[2..][i - 2]; }
        }
      }
    }
  }

  lemma {:induction false} HexBytes(s: string, i: nat)
    requires HexDecode(s).Some? && i < |HexDecode(s).value|
    ensures 2 * i + 1 < |s| && IsByteAt(s, i, HexDecode(s).value[i])
  {
    HexDecodes(s);
    if i > 0 {
      HexBytes(s[2..], i - 1);
      assert s[2..][2 * (i - 1)] == s[2 * i] && s[2..][2 * (i - 1) + 1] == s[2 * i + 1];
    }
  }

  datatype Ack = Ack(runId: string, nonce: seq<nat>, startedAtUnixMs: Option<int>, clockOffsetMs: real)

  datatype HandshakeError =
    | InvalidNonce
    | MalformedNonce
    | Rejected(runId: string, message: string)
    | ClosedDuring(reason: Option<string>)
    | SocketFailed(error: string)
    | PongFailed
    | ClosedBefore

  predicate Accepted(nonce: string) {
    |Trim(nonce)| == 64 && AllHex(Trim(nonce))
  }

  /** A message the handshake passes over; a ping is one as long as its pong can be written. */
  predicate PassedOver(m: Inbound, write: WriteResult) {
    match m
    case TextFrame(Ok(StartAck(_, _, _))) => false
    case TextFrame(Ok(ErrorMessage(_, _))) => false
    case TextFrame(_) => true
    case PingFrame(_) => write.Written?
    case IgnoredFrame => true
    case _ => false
  }

  function PingPayloads(incoming: seq<Inbound>): seq<Payload> {
    if incoming == [] then []
    else
      var m := incoming[|incoming| - 1];
      PingPayloads(incoming[..|incoming| - 1]) + if m.PingFrame? then [m.payload] else []
  }

  function Offset(startedAt: Option<int>, sentMs: real, receivedMs: real): real {
    if startedAt.Some? then startedAt.value as real - (sentMs + receivedMs) / 2.0 else 0.0
  }

  predicate IsAck(m: Inbound) {
    m.TextFrame? && m.parsed.Ok? && m.parsed.value.StartAck?
  }

  /** The details taken from the acknowledgement: a 32-byte nonce, the run, and the clock offset. */
  predicate Acknowledges(a: Ack, m: Parsed, sentMs: real, receivedMs: real)
    requires m.StartAck?
  {
    && |a.nonce| == 32 && (forall i :: 0 <= i < 32 ==> a.nonce[i] < 256)
    && HexDecode(Trim(m.sessionNonce)) == Some(a.nonce)
    && a.runId == m.ackRunId && a.startedAtUnixMs == m.startedAtUnixMs
    && (if m.startedAtUnixMs.None? then a.clockOffsetMs == 0.0
        else 2.0 * (m.startedAtUnixMs.value as real - a.clockOffsetMs) == sentMs + receivedMs)
  }

  /** The error that the deciding message, or the end of the stream, is reported as. */
  predicate RefusedAs(incoming: seq<Inbound>, decided: nat, error: HandshakeError) {
    if decided >= |incoming| then error == ClosedBefore
    else
      match incoming[decided]
      case TextFrame(Ok(StartAck(_, sessionNonce, _))) =>
        if HexDecode(Trim(sessionNonce)).None? then error == InvalidNonce
        else |HexDecode(Trim(sessionNonce)).value| != 32 && error == MalformedNonce
      case TextFrame(Ok(ErrorMessage(message, errRun))) =>
        error == Rejected(if errRun.Some? then errRun.value else "unknown", message)
      case PingFrame(_) => error == PongFailed
      case ClosedByPeer(reason) => error == ClosedDuring(reason)
      case SocketError(cause) => error == SocketFailed(cause)
      case StreamEnd => error == ClosedBefore
      case _ => false
  }

  /**
   * `incoming` ends where the stream does; `writes(i)` is how the pong for message `i` goes and
   * `clock(i)` the time it arrives. `decided` is the first message that is not passed over.
   */
  method WaitForStartAck(incoming: seq<Inbound>, writes: nat -> WriteResult, clock: nat -> real, sentMs: real)
    returns (r: Result<Ack, HandshakeError>, pongs: seq<Payload>, decided: nat)
    ensures decided <= |incoming|
    ensures forall i :: 0 <= i < decided ==> PassedOver(incoming[i], writes(i))
    ensures decided < |incoming| ==> !PassedOver(incoming[decided], writes(decided))
    ensures pongs == PingPayloads(incoming[..decided])
    ensures r.Ok? <==>
            && decided < |incoming| && IsAck(incoming[decided])
            && Accepted(incoming[decided].parsed.value.sessionNonce)
    ensures r.Ok? ==> Acknowledges(r.value, incoming[decided].parsed.value, sentMs, clock(decided))
    ensures r.Err? ==> RefusedAs(incoming, decided, r.error)
  {
    pongs := [];
    decided := 0;
    while decided < |incoming|
      invariant decided <= |incoming|
      invariant forall i :: 0 <= i < decided ==> PassedOver(incoming[i], writes(i))
      invariant pongs == PingPayloads(incoming[..decided])
    {
      assert incoming[..decided + 1][..decided] == incoming[..decided];
      match incoming[decided] {
        case TextFrame(Ok(StartAck(runId, sessionNonce, startedAt))) =>
          HexDecodes(Trim(sessionNonce));
          var bytes := HexDecode(Trim(sessionNonce));
          if bytes.None? {
            return Err(InvalidNonce), pongs, decided;
          }
          if |bytes.value| != 32 {
            return Err(MalformedNonce), pongs, decided;
          }
          return Ok(Ack(runId, bytes.value, startedAt, Offset(startedAt, sentMs, clock(decided)))), pongs, decided;
        case TextFrame(Ok(ErrorMessage(message, errRun))) =>
          return Err(Rejected(if errRun.Some? then errRun.value else "unknown", message)), pongs, decided;
        case TextFrame(_) =>
        case PingFrame(payload) =>
          if !writes(decided).Written? {
            return Err(PongFailed), pongs, decided;
          }
          pongs := pongs + [payload];
        case ClosedByPeer(reason) =>
          return Err(ClosedDuring(reason)), pongs, decided;
        case SocketError(error) =>
          return Err(SocketFailed(error)), pongs, decided;
        case IgnoredFrame =>
        case StreamEnd =>
          return Err(ClosedBefore), pongs, decided;
      }
      decided := decided + 1;
    }
    return Err(ClosedBefore), pongs, decided;
  }
}
