/** Length-prefixed messages over a byte stream. */
module Framing {
  import opened RaftTypes
  import opened Buffers
  import opened Words
  import opened Protocol

  type Data = seq<Byte>

  /** A four-byte length, cut to 32 bits, and the data. */
  function Frame(host: Host, m: Data): seq<Byte> {
    Number(host, |m| % Power256(4), 4) + m
  }

  function Stream(host: Host, messages: seq<Data>): seq<Byte> {
    if messages == [] then [] else Frame(host, messages[0]) + Stream(host, messages[1..])
  }

  /** The messages a connection with a body buffer of `capacity` bytes takes from a stream: it stops
      at the first header that asks for more, and at a header or body the stream does not complete. */
  function Parse(host: Host, capacity: nat, s: seq<Byte>): seq<Data>
    decreases |s|
  {
    if |s| < 4 then []
    else
      var n := Read(host, s[..4]);
      if n > capacity || |s| - 4 < n then []
      else [s[4..4 + n]] + Parse(host, capacity, s[4 + n..])
  }

  lemma NothingToParse(host: Host, capacity: nat)
    ensures Parse(host, capacity, []) == []
  {
  }

  class Message {
    var data: Data

    constructor (data: Data)
      ensures this.data == data
    {
      this.data := data;
    }

    /** The bytes are moved one by one, which copies them: the message keeps its data. */
    method Encode(host: Host) returns (e: seq<Byte>)
      ensures e == Frame(host, data)
    {
      var header := Htoa(host, ToWord(|data| % Power256(4), 4));
      var out := new Byte[|header| + |data|];
      forall j | 0 <= j < |header| {
        out[j] := header[j];
      }
      forall j | 0 <= j < |data| {
        out[|header| + j] := data[j];
      }
      e := out[..];
      assert e == header + data;
    }
  }

  class ServerConnection {
    const host: Host
    const header: array<Byte>
    const body: array<Byte>
    var delivered: seq<Data>  // messages handed to the callback
    var closed: bool

    constructor (host: Host, capacity: nat)
      ensures this.host == host && header.Length == 4 && body.Length == capacity && header != body
      ensures delivered == [] && !closed && fresh(header) && fresh(body)
    {
      this.host := host;
      header, body := new Byte[4], new Byte[capacity];
      delivered, closed := [], false;
    }

    method ReadHeader(input: seq<Byte>) returns (length: nat)
      requires header.Length == 4 && |input| >= 4
      modifies header
      ensures length == Read(host, input[..4])
    {
      forall j | 0 <= j < 4 {
        header[j] := input[j];
      }
      assert header[..] == input[..4];
      var word := Atoh(host, header[..]);
      length := FromWord(word);
    }

    /** Closes on a body that is too large or cut off; delivers it otherwise. */
    method ReadBody(input: seq<Byte>, length: nat)
      requires !closed
      modifies this, body
      ensures closed <==> length > body.Length || |input| < length
      ensures delivered == if closed then old(delivered) else old(delivered) + [input[..length]]
    {
      if length > body.Length {
        closed := true;
        return;
      }
      if |input| < length {
        closed := true;
      } else {
        forall j | 0 <= j < length {
          body[j] := input[j];
        }
        assert body[..length] == input[..length];
        delivered := delivered + [body[..length]];
      }
    }

    /** The header/body loop on all the bytes the peer ever sends: it delivers what the stream
        parses to and ends with the socket closed. */
    method Serve(stream: seq<Byte>)
      requires header.Length == 4 && header != body && !closed
      modifies this, header, body
      ensures delivered == old(delivered) + Parse(host, body.Length, stream) && closed
    {
      hide Read;
      var rest := stream;
      while !closed
        invariant old(delivered) + Parse(host, body.Length, stream) ==
                  delivered + if closed then [] else Parse(host, body.Length, rest)
        decreases if closed then 0 else 1 + |rest|
      {
        if |rest| < 4 {
          closed := true;
        } else {
          var length := ReadHeader(rest);
          ReadBody(rest[4..], length);
          if !closed {
            assert rest[4..][..length] == rest[4..4 + length] && rest[4..][length..] == rest[4 + length..];
            rest := rest[4..][length..];
          }
        }
      }
    }
  }

  // ---- round trip ----

  /** A message whose frame can be read back: it fits the buffer, its length fits 32 bits and
      crosses between the two hosts. */
  predicate Fits(sender: Host, receiver: Host, capacity: nat, m: Data) {
    |m| <= capacity && |m| < Power256(4) && Crosses(sender, receiver, ToWord(|m|, 4))
  }

  lemma ReadBelow(host: Host, a: seq<Byte>)
    ensures Read(host, a) < Power256(|a|)
  {
    FromTo(Unwire(host, a));
  }

  lemma FrameParts(sender: Host, receiver: Host, m: Data, rest: seq<Byte>)
    ensures var s := Frame(sender, m) + rest;
            && |s| >= 4 + |m| && s[4..4 + |m|] == m && s[4 + |m|..] == rest
            && (Read(receiver, s[..4]) == |m| <==> |m| < Power256(4) && Crosses(sender, receiver, ToWord(|m|, 4)))
  {
    hide Number, Read, Crosses, ToWord;
    var n := |m| % Power256(4);
    assert Power256(4) == 0x1_0000_0000;
    NumberLength(sender, n, 4);
    NumberRoundTrip(sender, receiver, n, 4);
    var s := Frame(sender, m) + rest;
    assert s[..4] == Number(sender, n, 4);
    ReadBelow(receiver, s[..4]);
  }

  /** Byte k of the header. */
  lemma HeaderByte(host: Host, m: Data, k: nat)
    requires k < 4
    ensures |Frame(host, m)| == 4 + |m|
    ensures Frame(host, m)[k] == |m| % 0x1_0000_0000 / Power256(if host.bigEndian then 3 - k else k) % 256
  {
    assert Power256(4) == 0x1_0000_0000;
    SentByte(host, |m| % Power256(4), 4, k);
  }

  /** The first message of a stream is delivered intact exactly if it fits. */
  lemma FirstFrame(sender: Host, receiver: Host, capacity: nat, m: Data, rest: seq<Byte>)
    ensures var got := Parse(receiver, capacity, Frame(sender, m) + rest);
            && (|got| > 0 && got[0] == m <==> Fits(sender, receiver, capacity, m))
            && (Fits(sender, receiver, capacity, m) ==> got == [m] + Parse(receiver, capacity, rest))
  {
    FrameParts(sender, receiver, m, rest);
    hide Read, Frame, Crosses;
  }

  /** Framing round trip: a list of messages arrives whole and in order exactly if all of them fit. */
  lemma {:induction false} FramingRoundTrip(sender: Host, receiver: Host, capacity: nat, messages: seq<Data>)
    ensures Parse(receiver, capacity, Stream(sender, messages)) == messages <==>
            forall m :: m in messages ==> Fits(sender, receiver, capacity, m)
  {
    hide Fits, Frame, Parse;
    if messages == [] {
      NothingToParse(receiver, capacity);
    } else {
      var rest := messages[1..];
      FirstFrame(sender, receiver, capacity, messages[0], Stream(sender, rest));
      FramingRoundTrip(sender, receiver, capacity, rest);
      assert messages == [messages[0]] + rest;
    }
  }

  /** Whatever bytes follow, they never change what has been delivered before. */
  lemma {:induction false} DeliveryIsFinal(host: Host, capacity: nat, s: seq<Byte>, more: seq<Byte>)
    ensures Parse(host, capacity, s) <= Parse(host, capacity, s + more)
    decreases |s|
  {
    if |s| >= 4 {
      var n := Read(host, s[..4]);
      assert (s + more)[..4] == s[..4];
      if n <= capacity && n <= |s| - 4 {
        assert (s + more)[4..4 + n] == s[4..4 + n];
        assert (s + more)[4 + n..] == s[4 + n..] + more;
        DeliveryIsFinal(host, capacity, s[4 + n..], more);
      }
    }
  }

  /** A stream cut anywhere delivers exactly the messages whose frames lie wholly before the cut. */
  lemma {:induction false} CutStream(sender: Host, receiver: Host, capacity: nat, messages: seq<Data>, cut: nat)
    returns (n: nat)
    requires cut <= |Stream(sender, messages)|
    requires forall m :: m in messages ==> Fits(sender, receiver, capacity, m)
    ensures n <= |messages| && Parse(receiver, capacity, Stream(sender, messages)[..cut]) == messages[..n]
    ensures |Stream(sender, messages[..n])| <= cut
    ensures n < |messages| ==> cut < |Stream(sender, messages[..n + 1])|
    decreases |messages|
  {
    hide Fits, Frame, Parse;
    var all := Stream(sender, messages);
    n := 0;
    assert Parse(receiver, capacity, []) == [] by { NothingToParse(receiver, capacity); }
    if messages != [] {
      var m, rest := messages[0], Stream(sender, messages[1..]);
      var f := |Frame(sender, m)|;
      assert [m] == messages[..1] && messages[..1][1..] == [];
      assert Stream(sender, messages[..1]) == Frame(sender, m);
      if cut >= f {
        assert all[..cut] == Frame(sender, m) + rest[..cut - f];
        FirstFrame(sender, receiver, capacity, m, rest[..cut - f]);
        var k := CutStream(sender, receiver, capacity, messages[1..], cut - f);
        n := k + 1;
        assert messages[..n] == [m] + messages[1..][..k] && messages[..n][1..] == messages[1..][..k];
        if n < |messages| {
          assert messages[..n + 1][1..] == messages[1..][..k + 1];
        }
      } else {
        CutFrame(sender, receiver, capacity, m, cut);
        assert all[..cut] == Frame(sender, m)[..cut];
      }
    }
  }

  lemma CutFrame(sender: Host, receiver: Host, capacity: nat, m: Data, cut: nat)
    requires Fits(sender, receiver, capacity, m)
    requires cut < |Frame(sender, m)|
    ensures Parse(receiver, capacity, Frame(sender, m)[..cut]) == []
  {
    FrameParts(sender, receiver, m, []);
    var s := Frame(sender, m);
    assert s + [] == s;
    if cut >= 4 {
      assert s[..cut][..4] == s[..4];
    }
  }

  // ---- from events to events ----

  function Encoded(host: Host, events: seq<Event>): seq<Data>
    requires forall e :: e in events ==> Encodable(e)
  {
    if events == [] then [] else [Encode(host, events[0])] + Encoded(host, events[1..])
  }

  /** The events a receiver decodes from what was delivered, in order. */
  ghost predicate DecodesTo(host: Host, messages: seq<Data>, events: seq<Event>) {
    && |messages| == |events|
    && forall k :: 0 <= k < |messages| ==> Sized(host, messages[k]) && Decode(host, messages[k]) == Ok(events[k])
  }

  /** A length below 128 reads as 2^24 times itself where the byte order differs. */
  lemma LengthCrosses(sender: Host, receiver: Host, n: nat)
    requires sender.bigEndian != receiver.bigEndian && n < 128
    ensures Read(receiver, Number(sender, n, 4)) == 0x100_0000 * n
  {
    ToWordZero(3);
    assert ToWord(n, 4) == [n] + ToWord(0, 3) == [n, 0, 0, 0];
    assert Reverse([n, 0, 0, 0]) == [0, 0, 0, n] && Reverse([0, 0, 0, n]) == [n, 0, 0, 0];
    assert Smear(receiver, [0, 0, 0, n]) == [0, 0, 0, n] && Smear(receiver, [n, 0, 0, 0]) == [n, 0, 0, 0];
    assert Unwire(receiver, Number(sender, n, 4)) == [0, 0, 0, n];
    assert [n][1..] == [] && [0, n][1..] == [n] && [0, 0, n][1..] == [0, n] && [0, 0, 0, n][1..] == [0, 0, n];
    assert FromWord([n]) == n;
    assert FromWord([0, 0, n]) == 256 * FromWord([0, n]) == 65536 * n;
    assert FromWord([0, 0, 0, n]) == 256 * FromWord([0, 0, n]);
  }

  lemma HeaderCrosses(sender: Host, receiver: Host, m: Data, rest: seq<Byte>)
    requires sender.bigEndian != receiver.bigEndian && |m| < 128
    ensures var s := Frame(sender, m) + rest; |s| >= 4 && Read(receiver, s[..4]) == 0x100_0000 * |m|
  {
    hide Number, Read;
    assert Power256(4) == 0x1_0000_0000;
    NumberLength(sender, |m|, 4);
    LengthCrosses(sender, receiver, |m|);
    assert (Frame(sender, m) + rest)[..4] == Number(sender, |m|, 4);
  }

  /** Both numbers of the event arrive unchanged at the receiver. */
  predicate Arrives(receiver: Host, e: Event)
    requires Encodable(e)
  {
    Survives(receiver, ToWord(e.sender, 8)) && Survives(receiver, ToWord(e.term, 8))
  }

  /** An event the receiver gets as it was sent: one byte order, room for its 18 or 19 bytes, and
      both numbers arrive. */
  predicate Delivered(sender: Host, receiver: Host, capacity: nat, e: Event)
    requires Encodable(e)
  {
    && sender.bigEndian == receiver.bigEndian
    && (if e.VoteResponse? then 19 else 18) <= capacity
    && Arrives(receiver, e)
  }

  lemma EventFits(sender: Host, receiver: Host, capacity: nat, e: Event)
    requires sender.bigEndian == receiver.bigEndian && Encodable(e)
    ensures var m := Encode(sender, e);
            && |m| == (if e.VoteResponse? then 19 else 18)
            && (Fits(sender, receiver, capacity, m) <==> |m| <= capacity)
            && Crosses(sender, receiver, ToWord(|m|, 4)) && |m| < Power256(4)
  {
    hide Encode;
    var m := Encode(sender, e);
    assert |m| == (if e.VoteResponse? then 19 else 18) by { Parts(sender, e); }
    assert ToWord(|m|, 4) == [|m|, 0, 0, 0];
    assert Power256(4) == 0x1_0000_0000;
  }

  /** The first event between hosts of one byte order: what it is delivered as, if at all. */
  lemma FirstEvent(sender: Host, receiver: Host, capacity: nat, e: Event, rest: seq<Byte>)
    requires sender.bigEndian == receiver.bigEndian && Encodable(e)
    ensures var m := Encode(sender, e);
            && Sized(receiver, m) && (Decode(receiver, m) == Ok(e) <==> Arrives(receiver, e))
            && Parse(receiver, capacity, Frame(sender, m) + rest) ==
               if (if e.VoteResponse? then 19 else 18) <= capacity then [m] + Parse(receiver, capacity, rest) else []
  {
    hide Encode, Sized, Decode, Survives, Read, Frame, Crosses, ToWord, Power256;
    var m := Encode(sender, e);
    EventRoundTrip(sender, receiver, e);
    EventFits(sender, receiver, capacity, e);
    FrameParts(sender, receiver, m, rest);
    FirstFrame(sender, receiver, capacity, m, rest);
  }

  /** Across byte orders the first thing delivered, if any, is no event. */
  lemma FirstIsForeign(sender: Host, receiver: Host, capacity: nat, e: Event, rest: seq<Byte>)
    requires sender.bigEndian != receiver.bigEndian && Encodable(e)
    ensures var got := Parse(receiver, capacity, Frame(sender, Encode(sender, e)) + rest);
            got == [] || (Sized(receiver, got[0]) && Decode(receiver, got[0]) == UnsupportedType)
  {
    hide Encode, Number, Read, Frame;
    var m := Encode(sender, e);
    var s := Frame(sender, m) + rest;
    assert |m| >= 18 && |m| < 128 && m[..2] == Number(sender, TypeCode(e), 2) by { Parts(sender, e); }
    HeaderCrosses(sender, receiver, m, rest);
    TypeArrives(sender, receiver, TypeCode(e));
    FrameStarts(sender, m, rest);
    var n := Read(receiver, s[..4]);
    if n <= capacity && n <= |s| - 4 {
      assert s[4..4 + n][..2] == s[4..6] == m[..2];
    }
  }

  lemma FrameStarts(host: Host, m: Data, rest: seq<Byte>)
    requires |m| >= 2
    ensures |Frame(host, m) + rest| >= 6 && (Frame(host, m) + rest)[4..6] == m[..2]
  {
    hide Number;
    NumberLength(host, |m| % Power256(4), 4);
  }

  lemma DecodesFirst(host: Host, m: Data, rest: seq<Data>, events: seq<Event>)
    requires events != []
    ensures DecodesTo(host, [m] + rest, events) <==>
            Sized(host, m) && Decode(host, m) == Ok(events[0]) && DecodesTo(host, rest, events[1..])
  {
    hide Sized, Decode;
    var all := [m] + rest;
    if DecodesTo(host, all, events) {
      assert all[0] == m;
      forall k | 0 <= k < |rest|
        ensures Sized(host, rest[k]) && Decode(host, rest[k]) == Ok(events[1..][k])
      {
        assert all[k + 1] == rest[k];
      }
    }
  }

  /** End to end: events encoded, framed, sent as one stream and served by a connection are decoded to
      the same events in the same order if and only if every one of them can be delivered. */
  lemma {:induction false} EventsArrive(sender: Host, receiver: Host, capacity: nat, events: seq<Event>)
    requires forall e :: e in events ==> Encodable(e)
    ensures DecodesTo(receiver, Parse(receiver, capacity, Stream(sender, Encoded(sender, events))), events) <==>
            forall e :: e in events ==> Delivered(sender, receiver, capacity, e)
  {
    hide Encode, Sized, Decode, Survives, Encodable, Frame, Parse, DecodesTo;
    if events == [] {
      NothingToParse(receiver, capacity);
      NothingDecodes(receiver, []);
    } else {
      var e, m, rest := events[0], Encode(sender, events[0]), Stream(sender, Encoded(sender, events[1..]));
      assert events == [e] + events[1..];
      assert Stream(sender, Encoded(sender, events)) == Frame(sender, m) + rest by {
        assert Encoded(sender, events)[1..] == Encoded(sender, events[1..]);
      }
      NothingDecodes(receiver, events);
      AllDelivered(sender, receiver, capacity, events);
      if sender.bigEndian == receiver.bigEndian {
        FirstEvent(sender, receiver, capacity, e, rest);
        DecodesFirst(receiver, m, Parse(receiver, capacity, rest), events);
        EventsArrive(sender, receiver, capacity, events[1..]);
      } else {
        FirstIsForeign(sender, receiver, capacity, e, rest);
        var got := Parse(receiver, capacity, Frame(sender, m) + rest);
        if DecodesTo(receiver, got, events) {
          FirstDecodes(receiver, got, events);
        }
      }
    }
  }

  lemma AllDelivered(sender: Host, receiver: Host, capacity: nat, events: seq<Event>)
    requires events != [] && forall e :: e in events ==> Encodable(e)
    ensures (forall e :: e in events ==> Delivered(sender, receiver, capacity, e)) <==>
            Delivered(sender, receiver, capacity, events[0]) &&
            forall e :: e in events[1..] ==> Delivered(sender, receiver, capacity, e)
  {
    assert events == [events[0]] + events[1..];
  }

  lemma NothingDecodes(host: Host, events: seq<Event>)
    ensures DecodesTo(host, [], events) <==> events == []
  {
  }

  lemma FirstDecodes(host: Host, messages: seq<Data>, events: seq<Event>)
    requires DecodesTo(host, messages, events) && events != []
    ensures messages != [] && Sized(host, messages[0]) && Decode(host, messages[0]) == Ok(events[0])
  {
  }

  /** Between hosts of different byte order no event arrives at all: the first length asks for
      18 * 2^24 bytes or more, and the connection closes. */
  lemma NothingCrosses(sender: Host, receiver: Host, capacity: nat, events: seq<Event>)
    requires sender.bigEndian != receiver.bigEndian && capacity < 0x1200_0000
    requires forall e :: e in events ==> Encodable(e)
    ensures Parse(receiver, capacity, Stream(sender, Encoded(sender, events))) == []
  {
    if events != [] {
      hide Encodable, Encode, Number, Read, Frame;
      var m, rest := Encode(sender, events[0]), Stream(sender, Encoded(sender, events[1..]));
      assert |m| == 18 || |m| == 19 by { Parts(sender, events[0]); }
      HeaderCrosses(sender, receiver, m, rest);
      assert Encoded(sender, events)[1..] == Encoded(sender, events[1..]);
      assert Stream(sender, Encoded(sender, events)) == Frame(sender, m) + rest;
    }
  }
}
