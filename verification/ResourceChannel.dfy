/**
 The resource transcript: the nonce both sides share, the frames the launcher sends, and the
 one acknowledgement it accepts.
 */
module ResourceChannel {
  import opened Bytes

  // ----- the nonce inside the unit name ---------------------------------------------------

  predicate HexDigit(c: char) { '0' <= c <= '9' || 'a' <= c <= 'f' }

  function HexValue(c: char): (v: nat)
    requires HexDigit(c)
    ensures v < 16
  {
    if c <= '9' then (c - '0') as nat else (c - 'a') as nat + 10
  }

  function HexChar(v: nat): (c: char)
    requires v < 16
    ensures HexDigit(c) && HexValue(c) == v
  {
    if v < 10 then '0' + v as char else 'a' + (v - 10) as char
  }

  /** 32 lower-case hexadecimal digits. */
  predicate HexName(s: string) { |s| == 32 && forall i :: 0 <= i < 32 ==> HexDigit(s[i]) }

  /** The 16 bytes two digits each stand for. */
  ghost predicate Decodes(s: string, nonce: Bytes) {
    && HexName(s) && |nonce| == 16
    && forall i :: 0 <= i < 16 ==> nonce[i] == 16 * HexValue(s[2 * i]) + HexValue(s[2 * i + 1])
  }

  /** A hexadecimal digit has its usual value. */
  lemma DigitsInNumbers()
    ensures HexValue('0') == 0 && HexValue('9') == 9 && HexValue('a') == 10 && HexValue('f') == 15
  {}

  function Spell(nonce: Bytes): (s: string)
    ensures |s| == 2 * |nonce|
  {
    seq(2 * |nonce|, k requires 0 <= k < 2 * |nonce| =>
      if k % 2 == 0 then HexChar(nonce[k / 2] / 16) else HexChar(nonce[k / 2] % 16))
  }

  /** Decoding is the inverse of spelling, so different units have different nonces. */
  lemma NonceRoundTrip(s: string, nonce: Bytes)
    requires Decodes(s, nonce)
    ensures Spell(nonce) == s
  {
    forall k | 0 <= k < 32 ensures Spell(nonce)[k] == s[k] {
      var i := k / 2;
      var high, low := HexValue(s[2 * i]), HexValue(s[2 * i + 1]);
      assert nonce[i] / 16 == high && nonce[i] % 16 == low;
      assert k == 2 * i || k == 2 * i + 1;
      SameDigit(s[k], if k % 2 == 0 then high else low);
    }
  }

  lemma SameDigit(c: char, v: nat)
    requires HexDigit(c) && v < 16 && HexValue(c) == v
    ensures HexChar(v) == c
  {}

  lemma DistinctUnits(s: string, t: string, nonce: Bytes)
    requires Decodes(s, nonce) && Decodes(t, nonce)
    ensures s == t
  {
    NonceRoundTrip(s, nonce);
    NonceRoundTrip(t, nonce);
  }

  /** The decoding loop of `icode_resource_init`; the unit's shape was checked before. */
  method DecodeNonce(unit: string, nonce: array<byte>)
    requires |unit| == 49 && HexName(unit[11..43]) && nonce.Length == 16
    modifies nonce
    ensures Decodes(unit[11..43], nonce[..])
  {
    for i := 0 to 16
      invariant forall k :: 0 <= k < i ==>
                nonce[k] == 16 * HexValue(unit[11..43][2 * k]) + HexValue(unit[11..43][2 * k + 1])
    {
      var value := 0;
      for j := 0 to 2
        invariant j == 0 ==> value == 0
        invariant j == 1 ==> value == HexValue(unit[11..43][2 * i])
        invariant j == 2 ==> value == 16 * HexValue(unit[11..43][2 * i]) + HexValue(unit[11..43][2 * i + 1])
      {
        var digit := unit[11 + 2 * i + j];
        assert digit == unit[11..43][2 * i + j];
        value := value * 16 + (if digit <= '9' then (digit - '0') as int else (digit - 'a') as int + 10);
      }
      nonce[i] := value;
    }
  }

  // ----- frames -----------------------------------------------------------------------------

  datatype Phase = Configured | PreexecFailed | Finished | CleanupFailed

  function PhaseByte(p: Phase): (b: byte) {
    match p
    case Configured => 1
    case PreexecFailed => 2
    case Finished => 3
    case CleanupFailed => 4
  }

  const FRAME_MAGIC: Bytes := [0x49, 0x43, 0x51, 0x52, 0x31]  // "ICQR1"
  const ACK_MAGIC: Bytes := [0x49, 0x43, 0x51, 0x41, 0x31]    // "ICQA1"

  function Frame(p: Phase, nonce: Bytes, limit: nat): (f: Bytes) {
    FRAME_MAGIC + [PhaseByte(p)] + nonce + ToBigEndian(limit, 4)
  }

  function Acknowledgement(nonce: Bytes, limit: nat): (a: Bytes) {
    ACK_MAGIC + nonce + ToBigEndian(limit, 4)
  }

  /** The four bytes of a 32-bit number, most significant first. */
  lemma LimitBytes(limit: nat)
    requires limit < 0x1_0000_0000
    ensures ToBigEndian(limit, 4)
            == [limit / 0x100_0000, limit / 0x1_0000 % 0x100, limit / 0x100 % 0x100, limit % 0x100]
  {
    var high := limit / 0x100_0000;
    assert limit / 0x100 / 0x100 == limit / 0x1_0000 && limit / 0x1_0000 / 0x100 == high;
    assert ToBigEndian(high, 1) == [high];
    assert ToBigEndian(limit / 0x1_0000, 2) == [high, limit / 0x1_0000 % 0x100];
    assert ToBigEndian(limit / 0x100, 3) == [high, limit / 0x1_0000 % 0x100, limit / 0x100 % 0x100];
  }

  /** The messages byte by byte: "ICQR1", the phase, the nonce and the limit; "ICQA1", the nonce and the limit. */
  lemma MessagesInNumbers(nonce: Bytes, limit: nat)
    requires limit < 0x1_0000_0000
    ensures var tail := nonce + [limit / 0x100_0000, limit / 0x1_0000 % 0x100, limit / 0x100 % 0x100, limit % 0x100];
            && Frame(Configured, nonce, limit) == [0x49, 0x43, 0x51, 0x52, 0x31, 1] + tail
            && Frame(PreexecFailed, nonce, limit) == [0x49, 0x43, 0x51, 0x52, 0x31, 2] + tail
            && Frame(Finished, nonce, limit) == [0x49, 0x43, 0x51, 0x52, 0x31, 3] + tail
            && Frame(CleanupFailed, nonce, limit) == [0x49, 0x43, 0x51, 0x52, 0x31, 4] + tail
            && Acknowledgement(nonce, limit) == [0x49, 0x43, 0x51, 0x41, 0x31] + tail
  {
    LimitBytes(limit);
  }

  /** What a reader of the transcript may conclude from one frame. */
  lemma FrameDetermines(p: Phase, q: Phase, m: Bytes, n: Bytes, k: nat, l: nat)
    requires |m| == 16 && |n| == 16 && k < WORD32 && l < WORD32
    ensures |Frame(p, m, k)| == 26
    ensures Frame(p, m, k) == Frame(q, n, l) ==> p == q && m == n && k == l
  {
    var f, g := Frame(p, m, k), Frame(q, n, l);
    assert f[5] == PhaseByte(p) && g[5] == PhaseByte(q);
    assert f[6..22] == m && g[6..22] == n;
    assert f[22..] == ToBigEndian(k, 4) && g[22..] == ToBigEndian(l, 4);
    assert Power256(4) == WORD32;
    FromBigEndian(k, 4);
    FromBigEndian(l, 4);
  }

  /** No frame the launcher sends is an acknowledgement it would accept. */
  lemma FramesAreNotAcknowledgements(p: Phase, m: Bytes, n: Bytes, k: nat, l: nat)
    ensures Frame(p, m, k) != Acknowledgement(n, l)
  {
    assert Frame(p, m, k)[3] == 0x52 && Acknowledgement(n, l)[3] == 0x41;
  }

  // ----- the socket ---------------------------------------------------------------------------

  datatype Credentials = Credentials(pid: int, uid: int, gid: int)

  /** One ancillary message: descriptors, credentials of the expected length, or anything else. */
  datatype Control = Rights(descriptors: seq<int>) | Sender(credentials: Credentials) | Unknown

  /** What `recvmsg` brought: a failure, or some bytes and their ancillary messages. */
  datatype Message = Message(data: Bytes, controls: seq<Control>, truncated: bool)

  /** Every descriptor a message delivered. */
  function Delivered(controls: seq<Control>): (ds: seq<int>) {
    if controls == [] then []
    else (if controls[0].Rights? then controls[0].descriptors else []) + Delivered(controls[1..])
  }

  predicate Distinct(ds: seq<int>) { forall i, j :: 0 <= i < j < |ds| ==> ds[i] != ds[j] }

  /** One whole acknowledgement from the expected process, with nothing else attached. */
  predicate Acceptable(m: Message, nonce: Bytes, limit: nat, host: Credentials) {
    m.data == Acknowledgement(nonce, limit) && m.controls == [Sender(host)] && !m.truncated
  }

  class Channel {
    var open: set<int>
    var sent: seq<Bytes>
    var inbox: seq<Message>
    var interruptions: nat
    const nonce: Bytes
    const limit: nat
    const host: Credentials

    predicate Valid()
      reads this
    {
      |nonce| == 16 && limit < WORD32
    }

    /** `send` of one whole frame, tried again only when interrupted. */
    method Send(p: Phase) returns (ok: bool)
      requires Valid()
      modifies this`sent, this`interruptions
      ensures Valid() && sent == if ok then old(sent) + [Frame(p, nonce, limit)] else old(sent)
    {
      var frame := new byte[26];
      FillFrame(p, frame);
      while true
        invariant Valid() && sent == old(sent) && frame[..] == Frame(p, nonce, limit)
        decreases interruptions
      {
        var interrupted: bool, taken: bool := *, *;
        if interrupted && interruptions > 0 {
          interruptions := interruptions - 1;
          continue;
        }
        if taken { sent := sent + [frame[..]]; }
        return taken;
      }
    }

    method FillFrame(p: Phase, frame: array<byte>)
      requires Valid() && frame.Length == 26
      modifies frame
      ensures frame[..] == Frame(p, nonce, limit)
    {
      var big := ToBigEndian(limit, 4);
      forall k | 0 <= k < 5 { frame[k] := FRAME_MAGIC[k]; }
      frame[5] := PhaseByte(p);
      forall k | 0 <= k < 16 { frame[6 + k] := nonce[k]; }
      forall k | 0 <= k < 4 { frame[22 + k] := big[k]; }
      assert frame[..] == FRAME_MAGIC + [PhaseByte(p)] + nonce + big;
    }

    /** `recvmsg`: the delivered descriptors are new ones, and open from now on. */
    method Receive() returns (m: Option<Message>)
      requires Valid()
      modifies this`open, this`inbox
      ensures m.None? ==> open == old(open)
      ensures m.Some? ==>
                var ds := Delivered(m.value.controls);
                Distinct(ds) && (forall d :: d in ds ==> d !in old(open)) && open == old(open) + (set d | d in ds)
    {
      if inbox == [] { return None; }
      var next := inbox[0];
      inbox := inbox[1..];
      var ds := Delivered(next.controls);
      if !Distinct(ds) || exists d :: d in ds && d in open { return None; }
      open := open + (set d | d in ds);
      m := Some(next);
    }

    /** `close` of an open descriptor. */
    method Close(d: int)
      requires d in open
      modifies this`open
      ensures open == old(open) - {d}
    {
      open := open - {d};
    }

    /** `icode_resource_ack` once the socket is readable. */
    method Acknowledged() returns (ok: bool, ghost received: Option<Message>)
      requires Valid()
      modifies this`open, this`inbox
      ensures Valid() && open == old(open)
      ensures ok <==> received.Some? && Acceptable(received.value, nonce, limit, host)
    {
      var m := Receive();
      received := m;
      if m == None { return false, m; }
      var message := m.value;
      var extra, count, credentials := ReadControls(message.controls, old(open));
      ok := |message.data| == 25 && !extra && count == 1 && credentials == host && !message.truncated
            && message.data[..5] == ACK_MAGIC && message.data[5..21] == nonce
               && message.data[21..] == ToBigEndian(limit, 4);
      AckParts(message.data, nonce, limit);
    }

    /** The loop over the ancillary messages. */
    method ReadControls(controls: seq<Control>, ghost kept: set<int>)
      returns (extra: bool, count: nat, credentials: Credentials)
      requires var ds := Delivered(controls);
               Distinct(ds) && (forall d :: d in ds ==> d !in kept) && open == kept + (set d | d in ds)
      modifies this`open
      ensures open == kept
      ensures forall c :: (!extra && count == 1 && credentials == c) <==> controls == [Sender(c)]
    {
      hide Delivered, Distinct;
      extra, count := false, 0;
      credentials := Credentials(0, 0, 0);
      ghost var ds := Delivered(controls);
      Ends(controls);
      for i := 0 to |controls|
        invariant ds == Delivered(controls[..i]) + Delivered(controls[i..])
        invariant open == kept + (set d | d in Delivered(controls[i..]))
        invariant extra <==> exists k :: 0 <= k < i && !controls[k].Sender?
        invariant !extra ==> count == i
        invariant i > 0 && !extra ==> controls[i - 1] == Sender(credentials)
      {
        var c := controls[i];
        DeliveredSplit(controls, i);
        match c {
          case Rights(descriptors) =>
            extra := true;
            assert ds == Delivered(controls[..i]) + descriptors + Delivered(controls[i + 1..]);
            assert forall d :: d in descriptors + Delivered(controls[i + 1..]) ==> d in ds;
            CloseAll(descriptors, Delivered(controls[..i]), Delivered(controls[i + 1..]), kept);
          case Sender(sender) =>
            count := count + 1;
            credentials := sender;
          case Unknown =>
            extra := true;
        }
      }
    }

    /** The inner loop: each descriptor of one message is closed once. */
    method CloseAll(descriptors: seq<int>, ghost before: seq<int>, ghost after: seq<int>, ghost kept: set<int>)
      requires Distinct(before + descriptors + after)
      requires forall d :: d in descriptors + after ==> d !in kept
      requires open == kept + (set d | d in descriptors + after)
      modifies this`open
      ensures open == kept + (set d | d in after)
    {
      for j := 0 to |descriptors|
        invariant open == kept + (set d | d in descriptors[j..] + after)
      {
        var d := descriptors[j];
        assert d in descriptors[j..] + after;
        Once(before, descriptors, after, j);
        Close(d);
        assert descriptors[j..] + after == [d] + (descriptors[j + 1..] + after);
      }
      assert descriptors[|descriptors|..] + after == after;
    }
  }

  lemma Ends(controls: seq<Control>)
    ensures Delivered(controls[..0]) == [] && controls[0..] == controls
    ensures Delivered(controls[|controls|..]) == []
  {}

  lemma Once(before: seq<int>, ds: seq<int>, after: seq<int>, j: nat)
    requires Distinct(before + ds + after) && j < |ds|
    ensures ds[j] !in ds[j + 1..] + after
  {
    var all := before + ds + after;
    assert all[|before| + j] == ds[j];
    var tail := ds[j + 1..] + after;
    forall k | 0 <= k < |tail| ensures tail[k] != ds[j] {
      assert all[|before| + j + 1 + k] == tail[k];
    }
  }

  lemma {:induction false} DeliveredSplit(controls: seq<Control>, i: nat)
    requires i < |controls|
    ensures var c := controls[i];
            && Delivered(controls[i..]) == (if c.Rights? then c.descriptors else []) + Delivered(controls[i + 1..])
            && Delivered(controls[..i + 1]) == Delivered(controls[..i]) + (if c.Rights? then c.descriptors else [])
    decreases i
  {
    assert controls[i..][1..] == controls[i + 1..];
    if i == 0 {
      assert controls[..1][1..] == [];
    } else {
      DeliveredSplit(controls[1..], i - 1);
      assert controls[1..][..i] == controls[..i + 1][1..];
      assert controls[1..][..i - 1] == controls[..i][1..];
    }
  }

  lemma AckParts(data: Bytes, nonce: Bytes, limit: nat)
    requires |nonce| == 16
    ensures data == Acknowledgement(nonce, limit) <==>
              |data| == 25 && data[..5] == ACK_MAGIC && data[5..21] == nonce && data[21..] == ToBigEndian(limit, 4)
  {
    if |data| == 25 { assert data == data[..5] + data[5..21] + data[21..]; }
    var a := Acknowledgement(nonce, limit);
    assert a[..5] == ACK_MAGIC && a[5..21] == nonce && a[21..] == ToBigEndian(limit, 4);
  }
}
