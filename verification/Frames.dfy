/**
 The wire format of a sync session (kiem-sync's session.rs): length-prefixed document id and
 payload, lengths as big-endian 32-bit numbers.
 */
module Frames {
  import opened Text

  type Byte = b: int | 0 <= b < 256

  const MAX_DOC_ID_LEN := 1024
  const MAX_PAYLOAD_LEN := 64 * 1024 * 1024
  const TWO_TO_THE_32 := 0x1_0000_0000

  /** A document id as its UTF-8 bytes, and a payload. */
  datatype Frame = Frame(docId: seq<Byte>, payload: seq<Byte>)

  datatype Field = DocIdField | PayloadField
  /** `Ended`: the stream stops in the middle of what is being read. */
  datatype SessionError = Oversized(field: Field, len: nat) | BadDocId | Ended
  datatype Result<+T> = Ok(value: T) | Err(error: SessionError)

  function MaxLen(field: Field): nat {
    match field case DocIdField => MAX_DOC_ID_LEN case PayloadField => MAX_PAYLOAD_LEN
  }

  // ---- lengths ----

  function ToBe(n: nat): (r: seq<Byte>)
    requires n < TWO_TO_THE_32
    ensures |r| == 4
  {
    [n / 0x100_0000, n / 0x1_0000 % 0x100, n / 0x100 % 0x100, n % 0x100]
  }

  function FromBe(b: seq<Byte>): (n: nat)
    requires |b| == 4
    ensures n < TWO_TO_THE_32
  {
    b[0] as int * 0x100_0000 + b[1] as int * 0x1_0000 + b[2] as int * 0x100 + b[3]
  }

  lemma Digit(h: nat, l: nat)
    requires l < 0x100
    ensures (h * 0x100 + l) / 0x100 == h && (h * 0x100 + l) % 0x100 == l
  {
  }

  lemma Divisions(n: nat)
    ensures n / 0x1_0000 == n / 0x100 / 0x100 && n / 0x100_0000 == n / 0x100 / 0x100 / 0x100
  {
  }

  lemma FromToBe(n: nat)
    requires n < TWO_TO_THE_32
    ensures FromBe(ToBe(n)) == n
  {
    Divisions(n);
    var h3 := n / 0x100;
    var h2 := h3 / 0x100;
    assert n == h3 * 0x100 + n % 0x100 && h3 == h2 * 0x100 + h3 % 0x100 && h2 == h2 / 0x100 * 0x100 + h2 % 0x100;
  }

  /** The first byte in which they differ decides. */
  ghost predicate Precedes(a: seq<Byte>, b: seq<Byte>) {
    exists k | 0 <= k < |a| && k < |b| :: a[..k] == b[..k] && a[k] < b[k]
  }

  /** Lengths travel with their highest byte first: compared as bytes they compare as numbers. */
  lemma HighestByteFirst(m: nat, n: nat)
    requires m < n < TWO_TO_THE_32
    ensures Precedes(ToBe(m), ToBe(n))
  {
    hide ToBe;
    FromToBe(m);
    FromToBe(n);
    var a, b := ToBe(m), ToBe(n);
    var k := if a[0] != b[0] then 0 else if a[1] != b[1] then 1 else if a[2] != b[2] then 2 else 3;
    assert a[..k] == b[..k];
  }

  lemma ToFromBe(b: seq<Byte>)
    requires |b| == 4
    ensures ToBe(FromBe(b)) == b
  {
    var h2: nat := b[0] as int * 0x100 + b[1];
    var h3: nat := h2 * 0x100 + b[2];
    assert FromBe(b) == h3 * 0x100 + b[3];
    Digit(b[0], b[1]);
    Digit(h2, b[2]);
    Digit(h3, b[3]);
    Divisions(FromBe(b));
    hide FromBe;
  }

  // ---- one frame ----

  predicate Fits(f: Frame) {
    |f.docId| <= MAX_DOC_ID_LEN && |f.payload| <= MAX_PAYLOAD_LEN
  }

  function Sized(bytes: seq<Byte>): seq<Byte>
    requires |bytes| < TWO_TO_THE_32
  {
    ToBe(|bytes|) + bytes
  }

  function Encode(f: Frame): seq<Byte>
    requires Fits(f)
  {
    Sized(f.docId) + Sized(f.payload)
  }

  /** A length-prefixed field at the front of a stream, and what comes after it. */
  function TakeSized(field: Field, s: seq<Byte>): (r: Result<(seq<Byte>, seq<Byte>)>)
    ensures r.Ok? ==> 4 + |r.value.0| + |r.value.1| == |s|
  {
    if |s| < 4 then Err(Ended)
    else
      var len := FromBe(s[..4]);
      if len > MaxLen(field) then Err(Oversized(field, len))
      else if |s| - 4 < len then Err(Ended)
      else Ok((s[4..4 + len], s[4 + len..]))
  }

  /** Reading the id checks it before the payload is looked at. */
  function Decode(utf8: seq<Byte> -> bool, s: seq<Byte>): (r: Result<(Frame, seq<Byte>)>)
    ensures r.Ok? ==> |r.value.1| < |s|
  {
    match TakeSized(DocIdField, s)
    case Err(e) => Err(e)
    case Ok((id, rest)) =>
      if !utf8(id) then Err(BadDocId)
      else
        match TakeSized(PayloadField, rest)
        case Err(e) => Err(e)
        case Ok((payload, tail)) => Ok((Frame(id, payload), tail))
  }

  // ---- the streams ----

  class SendStream {
    var sent: seq<Byte>

    method WriteAll(bytes: seq<Byte>)
      modifies this
      ensures sent == old(sent) + bytes
    {
      sent := sent + bytes;
    }
  }

  class RecvStream {
    var rest: seq<Byte>

    /** `read_exact`: all the bytes asked for, or the end of the stream. */
    method ReadExact(n: nat) returns (r: Result<seq<Byte>>)
      modifies this
      ensures if n <= |old(rest)| then r == Ok(old(rest)[..n]) && rest == old(rest)[n..]
              else r == Err(Ended) && rest == []
    {
      if n <= |rest| {
        r := Ok(rest[..n]);
        rest := rest[n..];
      } else {
        r := Err(Ended);
        rest := [];
      }
    }
  }

  function CheckLen(field: Field, len: nat): Option<SessionError> {
    if len > MaxLen(field) then Some(Oversized(field, len % TWO_TO_THE_32)) else None
  }

  /** Nothing is written of a frame that is too long. */
  method WriteFrame(send: SendStream, docId: seq<Byte>, payload: seq<Byte>) returns (r: Result<()>)
    modifies send
    ensures r.Ok? <==> Fits(Frame(docId, payload))
    ensures send.sent == if r.Ok? then old(send.sent) + Encode(Frame(docId, payload)) else old(send.sent)
    ensures r.Err? ==> r.error == if |docId| > MAX_DOC_ID_LEN then Oversized(DocIdField, |docId| % TWO_TO_THE_32)
                                  else Oversized(PayloadField, |payload| % TWO_TO_THE_32)
  {
    hide ToBe;
    var bad := CheckLen(DocIdField, |docId|);
    if bad.Some? { return Err(bad.value); }
    bad := CheckLen(PayloadField, |payload|);
    if bad.Some? { return Err(bad.value); }
    send.WriteAll(ToBe(|docId|));
    send.WriteAll(docId);
    send.WriteAll(ToBe(|payload|));
    send.WriteAll(payload);
    r := Ok(());
  }

  method ReadSized(recv: RecvStream, field: Field) returns (r: Result<seq<Byte>>)
    modifies recv
    ensures match TakeSized(field, old(recv.rest))
      case Ok((bytes, rest)) => r == Ok(bytes) && recv.rest == rest
      case Err(e) => r == Err(e)
  {
    hide FromBe;
    ghost var s := recv.rest;
    var buf := recv.ReadExact(4);
    if buf.Err? { return Err(buf.error); }
    var len := FromBe(buf.value);
    if len > MaxLen(field) { return Err(Oversized(field, len)); }
    r := recv.ReadExact(len);
    if len <= |s| - 4 { assert s[4..][..len] == s[4..4 + len] && s[4..][len..] == s[4 + len..]; }
  }

  method ReadFrame(utf8: seq<Byte> -> bool, recv: RecvStream) returns (r: Result<Frame>)
    modifies recv
    ensures match Decode(utf8, old(recv.rest))
      case Ok((f, rest)) => r == Ok(f) && recv.rest == rest
      case Err(e) => r == Err(e)
  {
    hide TakeSized;
    var id := ReadSized(recv, DocIdField);
    if id.Err? { return Err(id.error); }
    if !utf8(id.value) { return Err(BadDocId); }
    var payload := ReadSized(recv, PayloadField);
    if payload.Err? { return Err(payload.error); }
    r := Ok(Frame(id.value, payload.value));
  }

  // ---- what was written is what is read ----

  lemma TakeWhatWasSized(field: Field, bytes: seq<Byte>, rest: seq<Byte>)
    requires |bytes| <= MaxLen(field)
    ensures |bytes| < TWO_TO_THE_32 && TakeSized(field, Sized(bytes) + rest) == Ok((bytes, rest))
  {
    FromToBe(|bytes|);
    var s := Sized(bytes) + rest;
    hide ToBe, FromBe;
    assert s[..4] == ToBe(|bytes|) && s[4..4 + |bytes|] == bytes && s[4 + |bytes|..] == rest;
  }

  lemma DecodeEncoded(utf8: seq<Byte> -> bool, f: Frame, rest: seq<Byte>)
    requires Fits(f) && utf8(f.docId)
    ensures Decode(utf8, Encode(f) + rest) == Ok((f, rest))
  {
    TakeWhatWasSized(DocIdField, f.docId, Sized(f.payload) + rest);
    TakeWhatWasSized(PayloadField, f.payload, rest);
    hide Sized, TakeSized;
    assert Encode(f) + rest == Sized(f.docId) + (Sized(f.payload) + rest);
  }

  /** What is read was written so: only one stream decodes to a frame, and its lengths are allowed. */
  lemma EncodeDecoded(utf8: seq<Byte> -> bool, s: seq<Byte>)
    ensures match Decode(utf8, s)
      case Ok((f, rest)) => Fits(f) && utf8(f.docId) && s == Encode(f) + rest
      case Err(Oversized(field, len)) => MaxLen(field) < len < TWO_TO_THE_32
      case Err(_) => true
  {
    SizedTaken(DocIdField, s);
    match TakeSized(DocIdField, s) {
      case Err(_) =>
      case Ok((id, rest)) => SizedTaken(PayloadField, rest);
    }
    hide Sized, TakeSized;
    if Decode(utf8, s).Ok? {
      var (f, tail) := Decode(utf8, s).value;
      assert s == Sized(f.docId) + (Sized(f.payload) + tail);
    }
  }

  lemma SizedTaken(field: Field, s: seq<Byte>)
    ensures match TakeSized(field, s)
      case Ok((bytes, rest)) => |bytes| <= MaxLen(field) && |bytes| < TWO_TO_THE_32 && s == Sized(bytes) + rest
      case Err(Oversized(f, len)) => f == field && MaxLen(field) < len < TWO_TO_THE_32
      case Err(e) => e == Ended
  {
    if |s| >= 4 {
      ToFromBe(s[..4]);
      hide ToBe, FromBe;
    }
  }

  // ---- whole streams ----

  /** The frames a reader gets, and why it stops. */
  function DecodeAll(utf8: seq<Byte> -> bool, s: seq<Byte>): (seq<Frame>, SessionError)
    decreases |s|
  {
    match Decode(utf8, s)
    case Err(e) => ([], e)
    case Ok((f, rest)) =>
      var (more, e) := DecodeAll(utf8, rest);
      ([f] + more, e)
  }

  method ReadAll(utf8: seq<Byte> -> bool, recv: RecvStream) returns (frames: seq<Frame>, error: SessionError)
    modifies recv
    ensures (frames, error) == DecodeAll(utf8, old(recv.rest))
  {
    hide Decode;
    frames := [];
    assert [] + DecodeAll(utf8, recv.rest).0 == DecodeAll(utf8, recv.rest).0;
    while true
      invariant frames + DecodeAll(utf8, recv.rest).0 == DecodeAll(utf8, old(recv.rest)).0
      invariant DecodeAll(utf8, recv.rest).1 == DecodeAll(utf8, old(recv.rest)).1
      decreases |recv.rest|
    {
      var next := ReadFrame(utf8, recv);
      match next {
        case Ok(f) =>
          ghost var more := DecodeAll(utf8, recv.rest).0;
          assert frames + ([f] + more) == frames + [f] + more;
          frames := frames + [f];
        case Err(e) =>
          assert frames + [] == frames;
          return frames, e;
      }
    }
  }

  ghost predicate Sendable(utf8: seq<Byte> -> bool, fs: seq<Frame>) {
    forall k | 0 <= k < |fs| :: Fits(fs[k]) && utf8(fs[k].docId)
  }

  function EncodeAll(fs: seq<Frame>): seq<Byte>
    requires forall k | 0 <= k < |fs| :: Fits(fs[k])
  {
    if fs == [] then [] else Encode(fs[0]) + EncodeAll(fs[1..])
  }

  /** Reading what was written gives the same frames in the same order, whatever follows. */
  lemma {:induction false} StreamRoundTrip(utf8: seq<Byte> -> bool, fs: seq<Frame>, tail: seq<Byte>)
    requires Sendable(utf8, fs)
    ensures DecodeAll(utf8, EncodeAll(fs) + tail) == (fs + DecodeAll(utf8, tail).0, DecodeAll(utf8, tail).1)
  {
    hide Encode, Decode, Fits;
    if fs == [] {
      assert [] + tail == tail;
      assert fs + DecodeAll(utf8, tail).0 == DecodeAll(utf8, tail).0;
    } else {
      DecodeEncoded(utf8, fs[0], EncodeAll(fs[1..]) + tail);
      assert EncodeAll(fs) + tail == Encode(fs[0]) + (EncodeAll(fs[1..]) + tail);
      StreamRoundTrip(utf8, fs[1..], tail);
      var more := DecodeAll(utf8, tail).0;
      assert [fs[0]] + (fs[1..] + more) == fs + more;
    }
  }

  lemma SizedCut(field: Field, bytes: seq<Byte>, p: seq<Byte>)
    requires |bytes| <= MaxLen(field) && |bytes| < TWO_TO_THE_32
    requires p <= Sized(bytes) && |p| < |Sized(bytes)|
    ensures TakeSized(field, p) == Err(Ended)
  {
    FromToBe(|bytes|);
    hide ToBe, FromBe;
    if |p| >= 4 { assert p[..4] == Sized(bytes)[..4] == ToBe(|bytes|); }
  }

  /** Part of a frame is no frame. */
  lemma FrameCut(utf8: seq<Byte> -> bool, f: Frame, p: seq<Byte>)
    requires Fits(f) && utf8(f.docId) && p <= Encode(f) && |p| < |Encode(f)|
    ensures Decode(utf8, p) == Err(Ended)
  {
    var id := Sized(f.docId);
    if |p| < |id| {
      assert p == Encode(f)[..|p|] == id[..|p|];
      SizedCut(DocIdField, f.docId, p);
    } else {
      var more := p[|id|..];
      assert p == id + more && more == Encode(f)[..|p|][|id|..] == Sized(f.payload)[..|more|];
      TakeWhatWasSized(DocIdField, f.docId, more);
      SizedCut(PayloadField, f.payload, more);
    }
  }

  /** How many whole frames fit in the first `len` bytes. */
  function Complete(fs: seq<Frame>, len: nat): (n: nat)
    requires forall k | 0 <= k < |fs| :: Fits(fs[k])
    ensures n <= |fs|
  {
    if fs == [] || |Encode(fs[0])| > len then 0 else 1 + Complete(fs[1..], len - |Encode(fs[0])|)
  }

  lemma {:induction false} CompleteIsLongest(fs: seq<Frame>, len: nat)
    requires forall k | 0 <= k < |fs| :: Fits(fs[k])
    ensures var n := Complete(fs, len);
      |EncodeAll(fs[..n])| <= len && (n < |fs| ==> len < |EncodeAll(fs[..n + 1])|)
  {
    hide Encode, Fits;
    var n := Complete(fs, len);
    if fs != [] {
      assert fs[..1] == [fs[0]] && [fs[0]][1..] == [];
      if n > 0 {
        CompleteIsLongest(fs[1..], len - |Encode(fs[0])|);
        assert fs[..n][1..] == fs[1..][..n - 1];
        if n < |fs| { assert fs[..n + 1][1..] == fs[1..][..n]; }
      }
    }
  }

  /** A prefix of `a + b` ends inside `a`, or is `a` and a prefix of `b`. */
  lemma PrefixSplits(a: seq<Byte>, b: seq<Byte>, p: seq<Byte>)
    requires p <= a + b
    ensures |p| < |a| ==> p == a[..|p|]
    ensures |a| <= |p| ==> p == a + p[|a|..] && p[|a|..] <= b
  {
    assert p == (a + b)[..|p|];
    if |a| <= |p| { assert p[|a|..] == b[..|p| - |a|]; }
  }

  /** A stream cut anywhere gives exactly the frames that arrived whole, and no error but its end. */
  lemma {:induction false} CutStream(utf8: seq<Byte> -> bool, fs: seq<Frame>, p: seq<Byte>)
    requires Sendable(utf8, fs) && p <= EncodeAll(fs)
    ensures DecodeAll(utf8, p) == (fs[..Complete(fs, |p|)], Ended)
  {
    hide Encode, Fits;
    if fs == [] {
      assert p == [];
    } else {
      var first := Encode(fs[0]);
      hide Decode;
      if |p| < |first| {
        PrefixSplits(first, EncodeAll(fs[1..]), p);
        FrameCut(utf8, fs[0], p);
      } else {
        var rest := p[|first|..];
        PrefixSplits(first, EncodeAll(fs[1..]), p);
        DecodeEncoded(utf8, fs[0], rest);
        hide EncodeAll;
        CutStream(utf8, fs[1..], rest);
        assert fs[..Complete(fs, |p|)] == [fs[0]] + fs[1..][..Complete(fs[1..], |rest|)];
      }
    }
  }
}
