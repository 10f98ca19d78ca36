/** The wire (network/server/iso_server.go): length-prefixed frames, what a stream of them delivers, and the
    socket of a connection. */
module Wire {
  import opened Wrappers

  // ---------------------------------------------------------------- frames

  /** Two big-endian length bytes, the length taken modulo 2^16, and the text. */
  function Frame(text: string): string {
    var length := |text| % 0x1_0000;
    [(length / 256) as char, (length % 256) as char] + text
  }

  datatype Incoming = Incoming(message: string, rest: string)

  /** The first frame of what the peer sends, or none when the stream ends inside it. */
  function ReadFrame(stream: string): Option<Incoming> {
    if |stream| < 2 then None
    else
      var length := stream[0] as int * 256 + stream[1] as int;
      if |stream| < 2 + length then None
      else Some(Incoming(stream[2..2 + length], stream[2 + length..]))
  }

  /** What a read loop reads until the stream ends. */
  function ReadAll(stream: string): seq<string>
    decreases |stream|
  {
    match ReadFrame(stream)
    case None => []
    case Some(f) => [f.message] + ReadAll(f.rest)
  }

  /** What a write loop has written for these texts. */
  function Stream(texts: seq<string>): string {
    if texts == [] then "" else Frame(texts[0]) + Stream(texts[1..])
  }

  /** A frame reads back as its text, with what follows untouched, exactly when the text is shorter than
      2^16. */
  lemma FrameReadsBack(text: string, rest: string)
    ensures ReadFrame(Frame(text) + rest).Some?
    ensures ReadFrame(Frame(text) + rest) == Some(Incoming(text, rest)) <==> |text| < 0x1_0000
    ensures ReadFrame(Frame(text) + rest).value.message == text <==> |text| < 0x1_0000
    ensures |text| < 0x1_0000 ==>
              Frame(text)[0] as int * 256 + Frame(text)[1] as int == |text| && Frame(text)[2..] == text
  {
    var s := Frame(text) + rest;
    var length := |text| % 0x1_0000;
    assert s[0] as int * 256 + s[1] as int == length;
    assert s[2..] == text + rest;
    if |text| < 0x1_0000 {
      assert s[2..2 + length] == text && s[2 + length..] == rest;
    }
  }

  /** A connection's frames read back as exactly the texts sent, in order, exactly when each is shorter than
      2^16. */
  lemma {:induction false} FramesReadBack(texts: seq<string>)
    ensures ReadAll(Stream(texts)) == texts <==> forall i :: 0 <= i < |texts| ==> |texts[i]| < 0x1_0000
  {
    hide Frame;
    hide ReadFrame;
    if texts == [] {
      NothingRead();
    } else {
      var rest := texts[1..];
      FrameReadsBack(texts[0], Stream(rest));
      FramesReadBack(rest);
      var f := ReadFrame(Stream(texts)).value;
      assert texts == [texts[0]] + rest;
      assert ([f.message] + ReadAll(f.rest))[0] == f.message;
      assert ([f.message] + ReadAll(f.rest))[1..] == ReadAll(f.rest);
      assert forall i :: 0 < i < |texts| ==> texts[i] == rest[i - 1];
      assert forall i :: 0 <= i < |rest| ==> rest[i] == texts[i + 1];
    }
  }

  lemma NothingRead()
    ensures ReadFrame("") == None
  {}

  /** A connection that breaks at any byte has delivered the first of those texts and nothing else. */
  lemma {:induction false} BrokenStream(texts: seq<string>, k: nat)
    requires k <= |Stream(texts)| && forall i :: 0 <= i < |texts| ==> |texts[i]| < 0x1_0000
    ensures ReadAll(Stream(texts)[..k]) <= texts
  {
    hide ReadFrame;
    if texts == [] {
      NothingRead();
    } else {
      var rest := texts[1..];
      var first := Frame(texts[0]);
      if k < |first| {
        CutFrame(texts[0], k);
        assert Stream(texts)[..k] == first[..k];
      } else {
        assert Stream(texts)[..k] == first + Stream(rest)[..k - |first|];
        hide Frame;
        FrameReadsBack(texts[0], Stream(rest)[..k - |first|]);
        BrokenStream(rest, k - |first|);
        assert texts == [texts[0]] + rest;
      }
    }
  }

  lemma CutFrame(text: string, k: nat)
    requires |text| < 0x1_0000 && k < |Frame(text)|
    ensures ReadFrame(Frame(text)[..k]) == None
  {
    var s := Frame(text)[..k];
    if k >= 2 {
      assert s[0] as int * 256 + s[1] as int == |text|;
    }
  }

  // ---------------------------------------------------------------- the socket

  /** A connection's two byte streams: what the peer has yet to have read, and what was written to it. */
  class Socket {
    var incoming: string
    var outgoing: string

    constructor (incoming: string)
      ensures this.incoming == incoming && outgoing == ""
    {
      this.incoming, outgoing := incoming, "";
    }

    /** io.ReadFull on a stream that ends: what there is is consumed even when it is too little. */
    method ReadFull(n: nat) returns (r: Option<string>)
      modifies this`incoming
      ensures r == if |old(incoming)| < n then None else Some(old(incoming)[..n])
      ensures incoming == if |old(incoming)| < n then "" else old(incoming)[n..]
    {
      if |incoming| < n {
        incoming := "";
        return None;
      }
      r := Some(incoming[..n]);
      incoming := incoming[n..];
    }

    method ReadLengthPrefixedMessage() returns (r: Option<string>)
      modifies this`incoming
      ensures r.Some? <==> ReadFrame(old(incoming)).Some?
      ensures r.Some? ==> ReadFrame(old(incoming)) == Some(Incoming(r.value, incoming))
    {
      var lengthBytes := ReadFull(2);
      if lengthBytes.None? {
        return None;
      }
      var length := lengthBytes.value[0] as int * 256 + lengthBytes.value[1] as int;
      r := ReadFull(length);
      ghost var stream := old(incoming);
      if |stream| >= 2 + length {
        assert stream[2..][..length] == stream[2..2 + length] && stream[2..][length..] == stream[2 + length..];
      }
    }

    /** One message of the write loop. */
    method WriteMessage(rawRequest: string)
      modifies this`outgoing
      ensures outgoing == old(outgoing) + Frame(rawRequest)
    {
      var length := |rawRequest| % 0x1_0000;
      var buf := [(length / 256) as char, (length % 256) as char];
      buf := buf + rawRequest;
      outgoing := outgoing + buf;
    }
  }
}
