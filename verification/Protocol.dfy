/** Encoding and decoding of the four wire messages. */
module Protocol {
  import opened RaftTypes
  import opened Buffers
  import opened Words
  import opened Shifts

  datatype Decoded = Ok(event: Event) | UnsupportedType

  function TypeCode(e: Event): nat {
    match e
    case VoteRequest(_, _) => 1
    case VoteResponse(_, _, _) => 2
    case Heartbeat(_, _) => 3
    case HeartbeatAck(_, _) => 4
    case ElectionTimeout => 100
  }

  /** Ids and terms are 64-bit numbers, and the local timeout never goes on the wire. */
  predicate Encodable(e: Event) {
    !e.ElectionTimeout? && e.sender < Power256(8) && e.term < Power256(8)
  }

  function Number(host: Host, v: nat, w: nat): seq<Byte> {
    Wire(host, ToWord(v, w))
  }

  lemma NumberLength(host: Host, v: nat, w: nat)
    ensures |Number(host, v, w)| == w
  {
  }

  /** Two bytes of type, eight of id, eight of term, and one more for a granted flag. */
  function Encode(host: Host, e: Event): seq<Byte>
    requires Encodable(e)
  {
    Number(host, TypeCode(e), 2) + Number(host, e.sender, 8) + Number(host, e.term, 8)
    + if e.VoteResponse? then [if e.granted then 1 else 0] else []
  }

  function Read(host: Host, a: seq<Byte>): nat {
    FromWord(Unwire(host, a))
  }

  /** The lengths the decoder relies on: a type, room for both numbers, and for a vote response
      exactly one byte more. */
  predicate Sized(host: Host, v: seq<Byte>) {
    && |v| >= 2
    && (Read(host, v[..2]) in {1, 3, 4} ==> |v| >= 18)
    && (Read(host, v[..2]) == 2 ==> |v| == 19)
  }

  function Decode(host: Host, v: seq<Byte>): Decoded
    requires Sized(host, v)
  {
    var t := Read(host, v[..2]);
    if t == 0 || t > 4 then UnsupportedType
    else
      var id, term := Read(host, v[2..10]), Read(host, v[10..18]);
      Ok(match t
         case 1 => VoteRequest(id, term)
         case 2 => VoteResponse(id, term, v[18] != 0)
         case 3 => Heartbeat(id, term)
         case _ => HeartbeatAck(id, term))
  }

  // ---- the code ----

  method EncodeMembers(host: Host, members: seq<nat>) returns (data: seq<Byte>)
    ensures data == Members(host, members)
  {
    data := [];
    for k := 0 to |members|
      invariant data == Members(host, members[..k])
    {
      var a := Htoa(host, ToWord(members[k], 8));
      data := data + a;
      assert members[..k + 1][..k] == members[..k];
    }
    assert members[..|members|] == members;
  }

  function Members(host: Host, members: seq<nat>): seq<Byte> {
    if members == [] then []
    else Members(host, members[..|members| - 1]) + Number(host, members[|members| - 1], 8)
  }

  lemma TwoMembers(host: Host, a: nat, b: nat)
    ensures Members(host, [a, b]) == Number(host, a, 8) + Number(host, b, 8)
  {
    hide Number;
    assert [a, b][..1] == [a] && [a][..0] == [];
    assert Members(host, [a]) == Number(host, a, 8);
  }

  lemma OneByte(host: Host, b: Byte)
    ensures Wire(host, [b]) == [b]
  {
  }

  method EncodeEvent(host: Host, e: Event) returns (v: seq<Byte>)
    requires Encodable(e)
    ensures v == Encode(host, e)
  {
    hide Wire, Members, ToWord;
    var kind := Htoa(host, ToWord(TypeCode(e), 2));
    var data := EncodeMembers(host, [e.sender, e.term]);
    TwoMembers(host, e.sender, e.term);
    if e.VoteResponse? {
      var granted := Htoa(host, [if e.granted then 1 else 0]);
      OneByte(host, if e.granted then 1 else 0);
      data := data + granted;
    }
    v := kind + data;
  }

  method DecodeEvent(host: Host, v: seq<Byte>) returns (r: Decoded)
    requires Sized(host, v)
    ensures r == Decode(host, v)
  {
    var kind := Atoh(host, v[..2]);
    var t := FromWord(kind);
    if t == 0 || t > 4 {
      return UnsupportedType;
    }
    var id := Atoh(host, v[2..10]);
    var term := Atoh(host, v[10..18]);
    match t {
      case 1 => r := Ok(VoteRequest(FromWord(id), FromWord(term)));
      case 2 =>
        var granted := Atoh(host, v[18..19]);
        assert granted == [v[18]];
        r := Ok(VoteResponse(FromWord(id), FromWord(term), granted[0] != 0));
      case 3 => r := Ok(Heartbeat(FromWord(id), FromWord(term)));
      case _ => r := Ok(HeartbeatAck(FromWord(id), FromWord(term)));
    }
  }

  // ---- round trip ----

  lemma NumberRoundTrip(sender: Host, receiver: Host, v: nat, w: nat)
    requires v < Power256(w)
    ensures Read(receiver, Number(sender, v, w)) == v <==> Crosses(sender, receiver, ToWord(v, w))
  {
    var x := Unwire(receiver, Number(sender, v, w));
    WordArrives(sender, receiver, ToWord(v, w));
    ToFrom(v, w);
    FromTo(x);
  }

  /** The type is read as itself between hosts of one byte order, and as 256 times itself between
      hosts of different order. */
  lemma TypeArrives(sender: Host, receiver: Host, code: nat)
    requires 1 <= code <= 4
    ensures Read(receiver, Number(sender, code, 2)) ==
            if sender.bigEndian == receiver.bigEndian then code else 256 * code
  {
    assert ToWord(code, 2) == [code, 0];
    if sender.bigEndian == receiver.bigEndian {
      WordRoundTrip(receiver, [code, 0]);
      assert Number(sender, code, 2) == Number(receiver, code, 2);
      assert FromWord([code, 0]) == code by { ToFrom(code, 2); }
    } else {
      var a := Number(sender, code, 2);
      assert Reverse([code, 0]) == [0, code] && Reverse([0, code]) == [code, 0];
      assert Smear(receiver, [0, code]) == [0, code] && Smear(receiver, [code, 0]) == [code, 0];
      assert Unwire(receiver, a) == [0, code];
      assert [0, code][1..] == [code] && FromWord([code]) == code;
    }
  }

  lemma Parts(host: Host, e: Event)
    requires Encodable(e)
    ensures var v := Encode(host, e);
            && |v| == (if e.VoteResponse? then 19 else 18)
            && v[..2] == Number(host, TypeCode(e), 2)
            && v[2..10] == Number(host, e.sender, 8) && v[10..18] == Number(host, e.term, 8)
            && (e.VoteResponse? ==> v[18] == if e.granted then 1 else 0)
  {
    hide Number;
    NumberLength(host, TypeCode(e), 2);
    NumberLength(host, e.sender, 8);
    NumberLength(host, e.term, 8);
  }

  /** Byte k of a number of w bytes as a host sends it. */
  lemma SentByte(host: Host, v: nat, w: nat, k: nat)
    requires k < w
    ensures Number(host, v, w)[k] == v / Power256(if host.bigEndian then w - 1 - k else k) % 256
  {
    DigitOf(v, w, if host.bigEndian then w - 1 - k else k);
  }

  /** The bytes on the wire: the type code, which is 1 for a request, 2 for a response, 3 for a
      heartbeat and 4 for its acknowledgement, in two bytes; id and term in eight each; and the flag. */
  lemma Layout(host: Host, e: Event, k: nat)
    requires Encodable(e) && k < 8
    ensures var v := Encode(host, e);
            var digit := if host.bigEndian then 7 - k else k;
            && |v| == (if e.VoteResponse? then 19 else 18)
            && v[if host.bigEndian then 1 else 0] == (match e
                                                      case VoteRequest(_, _) => 1
                                                      case VoteResponse(_, _, _) => 2
                                                      case Heartbeat(_, _) => 3
                                                      case HeartbeatAck(_, _) => 4)
            && v[if host.bigEndian then 0 else 1] == 0
            && v[2 + k] == e.sender / Power256(digit) % 256
            && v[10 + k] == e.term / Power256(digit) % 256
            && (e.VoteResponse? ==> v[18] == if e.granted then 1 else 0)
  {
    Parts(host, e);
    SentByte(host, e.sender, 8, k);
    SentByte(host, e.term, 8, k);
    SentByte(host, TypeCode(e), 2, 0);
    SentByte(host, TypeCode(e), 2, 1);
    var v := Encode(host, e);
    hide Encode, Number;
    assert v[..2][0] == v[0] && v[..2][1] == v[1];
    assert v[2..10][k] == v[2 + k] && v[10..18][k] == v[10 + k];
    assert Power256(1) == 256 && Power256(0) == 1;
  }

  /** Only the four type codes are accepted. What a host without signed `char` decodes, it encodes to
      the same bytes, if they are no more than their type needs and the flag is 0 or 1. */
  lemma DecodedEncodes(host: Host, v: seq<Byte>)
    requires !host.signedChar && Sized(host, v)
    ensures Decode(host, v).Ok? <==> 1 <= Read(host, v[..2]) <= 4
    ensures Decode(host, v).Ok? && (|v| == if Decode(host, v).event.VoteResponse? then 19 else 18) &&
            (|v| == 19 ==> v[18] <= 1) ==>
              Encodable(Decode(host, v).event) && Encode(host, Decode(host, v).event) == v
  {
    if Decode(host, v).Ok? {
      ReadSent(host, v[..2]);
      ReadSent(host, v[2..10]);
      ReadSent(host, v[10..18]);
      hide Read, Number;
      if |v| == 18 {
        assert v == v[..2] + v[2..10] + v[10..18];
      } else if |v| == 19 {
        assert v == v[..2] + v[2..10] + v[10..18] + [v[18]];
      }
    }
  }

  lemma ReadSent(host: Host, a: seq<Byte>)
    requires !host.signedChar
    ensures Read(host, a) < Power256(|a|) && Number(host, Read(host, a), |a|) == a
  {
    FromTo(Unwire(host, a));
    ReverseTwice(a);
    assert Smear(host, Reverse(a)) == Reverse(a);
  }

  /** Event round trip: whatever one host encodes, another can decode; and it reads the same event
      exactly if both have the same byte order and id and term survive the receiver's `char`. Hosts
      of different byte order reject each other's every message as unsupported. */
  lemma EventRoundTrip(sender: Host, receiver: Host, e: Event)
    requires Encodable(e)
    ensures Sized(receiver, Encode(sender, e))
    ensures Decode(receiver, Encode(sender, e)) == Ok(e) <==>
            sender.bigEndian == receiver.bigEndian &&
            Survives(receiver, ToWord(e.sender, 8)) && Survives(receiver, ToWord(e.term, 8))
    ensures sender.bigEndian != receiver.bigEndian ==> Decode(receiver, Encode(sender, e)) == UnsupportedType
  {
    hide Number, Read;
    Parts(sender, e);
    TypeArrives(sender, receiver, TypeCode(e));
    if sender.bigEndian == receiver.bigEndian {
      NumberRoundTrip(sender, receiver, e.sender, 8);
      NumberRoundTrip(sender, receiver, e.term, 8);
    }
  }

  /** Between hosts of one order every event returns when `char` is unsigned, and on little-endian
      hosts every event with id and term below 2^15 returns even when it is signed. */
  lemma OrdinaryEventsReturn(sender: Host, receiver: Host, e: Event)
    requires Encodable(e) && sender.bigEndian == receiver.bigEndian
    requires !receiver.signedChar || (!receiver.bigEndian && e.sender < 0x8000 && e.term < 0x8000)
    ensures Sized(receiver, Encode(sender, e)) && Decode(receiver, Encode(sender, e)) == Ok(e)
  {
    EventRoundTrip(sender, receiver, e);
    if receiver.signedChar {
      SmallSurvives(receiver, e.sender, 8);
      SmallSurvives(receiver, e.term, 8);
    }
  }

  /** The first term a little-endian host with signed `char` reads back wrongly. */
  lemma FirstLostTerm(e: Event)
    requires Encodable(e) && e.term == 0x8000
    ensures var h := Host(false, true);
            Sized(h, Encode(h, e)) && Decode(h, Encode(h, e)) != Ok(e)
  {
    hide Decode, Encode, Sized;
    var h := Host(false, true);
    EventRoundTrip(h, h, e);
    var x := ToWord(e.term, 8);
    assert x[0] == 0 && x[1] == ToWord(0x80, 7)[0] == 128;
    assert !FullBelow(x);
  }
}
