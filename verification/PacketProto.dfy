/** The PacketProto encoder and decoder over their byte buffers. */
module PacketProto {
  import opened Bytes
  import opened PacketProtoSpec

  class Decoder {
    const mtu: nat
    const buf: array<byte>
    var start: nat
    var used: nat
    // where the outstanding receive writes, if there is one
    var request: Option<nat>

    constructor (outputMtu: nat)
      ensures Valid() && fresh(buf) && mtu == (if outputMtu < MAX_PAYLOAD then outputMtu else MAX_PAYLOAD)
      ensures Abs() == State([], false)
    {
      mtu := if outputMtu < MAX_PAYLOAD then outputMtu else MAX_PAYLOAD;
      buf := new byte[HEADER + (if outputMtu < MAX_PAYLOAD then outputMtu else MAX_PAYLOAD)];
      start := 0;
      used := 0;
      request := Some(0);
    }

    ghost predicate InBounds()
      reads this`start, this`used
    {
      buf.Length == HEADER + mtu && start + used <= buf.Length
    }

    /** An outstanding receive starts right behind the buffered bytes and has room. */
    ghost predicate Valid()
      reads this
    {
      InBounds() && (request.Some? ==> request.value == start + used < buf.Length)
    }

    ghost function Contents(): seq<byte>
      requires InBounds()
      reads this`start, this`used, buf
    {
      buf[start..start + used]
    }

    ghost function Abs(): State
      requires Valid()
      reads this, buf
    {
      State(Contents(), request.None?)
    }

    /** Room of the outstanding receive. */
    function Room(): nat
      requires Valid() && request.Some?
      reads this
    {
      buf.Length - request.value
    }

    /** memmove of the buffered bytes to the front. */
    method MoveToFront()
      requires InBounds()
      modifies this`start, buf
      ensures InBounds() && start == 0 && Contents() == old(Contents())
    {
      var i := 0;
      while i < used
        invariant 0 <= i <= used && start == old(start) && InBounds()
        invariant buf[..i] == old(buf[start..start + i])
        invariant forall k :: start + i <= k < start + used ==> buf[k] == old(buf[k])
      {
        buf[i] := buf[start + i];
        i := i + 1;
      }
      start := 0;
    }

    /** Submit the first buffered packet, or ask for more, dropping everything if the packet cannot fit. */
    method ProcessData() returns (submitted: Option<seq<byte>>, error: bool)
      requires InBounds()
      modifies this`start, this`used, this`request, buf
      ensures Valid()
      ensures Abs() == After(mtu, old(Contents()))
      ensures (if submitted.Some? then [submitted.value] else []) == Emitted(mtu, old(Contents()))
      ensures error <==> Process(mtu, old(Contents())).TooLarge?
    {
      hide Process, FromLe, After, Emitted, Contents;
      submitted, error := None, false;
      ghost var c := Contents();
      HasContents();
      if used >= HEADER {
        var n := FromLe(buf[start..start + HEADER]);
        if n > mtu {
          LargeIs(mtu, c);
          error := true;
        } else if used - HEADER >= n {
          PacketIs(mtu, c);
          var p := TakePacket(n);
          request := None;
          return Some(p), false;
        } else {
          IncompleteIs(mtu, c);
        }
      } else {
        IncompleteIs(mtu, c);
      }
      if error {
        DropAll();
      } else if start + used == buf.Length {
        MoveToFront();
      }
      request := Some(start + used);
    }

    lemma HasContents()
      requires InBounds()
      ensures |Contents()| == used && (used >= HEADER ==> Contents()[..HEADER] == buf[start..start + HEADER])
    {
    }

    /** Whatever is in the buffer, nothing of it counts. */
    method DropAll()
      requires InBounds()
      modifies this`start, this`used
      ensures InBounds() && start == used == 0 && Contents() == []
    {
      start, used := 0, 0;
    }

    /** Step over a whole packet. */
    method TakePacket(n: nat) returns (p: seq<byte>)
      requires InBounds() && HEADER + n <= used
      modifies this`start, this`used
      ensures InBounds() && p == old(Contents())[HEADER..HEADER + n] && Contents() == old(Contents())[HEADER + n..]
    {
      var at := start + HEADER;
      p := buf[at..at + n];
      SliceOfSlice(buf[..], start, start + used, HEADER, HEADER + n);
      SliceOfSlice(buf[..], start, start + used, HEADER + n, used);
      start := start + HEADER + n;
      used := used - (HEADER + n);
    }

    /** The stream delivered some of what was asked for. */
    method InputDone(data: seq<byte>) returns (submitted: Option<seq<byte>>, error: bool)
      requires Valid() && request.Some? && 0 < |data| <= Room()
      modifies this`start, this`used, this`request, buf
      ensures Valid() && Possible(old(Abs()), Received(data))
      ensures Abs() == Step(mtu, old(Abs()), Received(data))
      ensures (if submitted.Some? then [submitted.value] else []) == StepOut(mtu, old(Abs()), Received(data))
      ensures error <==> Process(mtu, old(Abs()).pending + data).TooLarge?
    {
      hide Contents, Process, After, Emitted;
      TakeInput(data);
      submitted, error := ProcessData();
    }

    /** The received bytes follow those already there. */
    method TakeInput(data: seq<byte>)
      requires Valid() && request.Some? && |data| <= Room()
      modifies this`used, buf
      ensures InBounds() && Contents() == old(Contents()) + data
    {
      CopyTo(buf, request.value, data);
      used := used + |data|;
      Appended(old(buf[..start + used]), start, old(used), data);
      assert buf[start..start + used] == buf[..start + used][start..];
    }

    /** The output has taken the packet. */
    method OutputDone() returns (submitted: Option<seq<byte>>, error: bool)
      requires Valid() && request.None?
      modifies this`start, this`used, this`request, buf
      ensures Valid() && Possible(old(Abs()), Sent)
      ensures Abs() == Step(mtu, old(Abs()), Sent)
      ensures (if submitted.Some? then [submitted.value] else []) == StepOut(mtu, old(Abs()), Sent)
      ensures error <==> Process(mtu, old(Abs()).pending).TooLarge?
    {
      submitted, error := ProcessData();
    }

    /** Forget what is buffered; an outstanding receive still ends up right behind it. */
    method Reset()
      requires Valid()
      modifies this`start, this`used
      ensures Valid() && Abs() == Step(mtu, old(Abs()), PacketProtoSpec.Reset)
    {
      start := start + used;
      used := 0;
    }
  }

  lemma IncompleteIs(mtu: nat, s: seq<byte>)
    requires |s| < HEADER || |s| - HEADER < FromLe(s[..HEADER]) <= mtu
    ensures Process(mtu, s).Incomplete? && After(mtu, s) == State(s, false) && Emitted(mtu, s) == []
  {
    hide FromLe;
  }

  lemma LargeIs(mtu: nat, s: seq<byte>)
    requires |s| >= HEADER && FromLe(s[..HEADER]) > mtu
    ensures Process(mtu, s).TooLarge? && After(mtu, s) == State([], false) && Emitted(mtu, s) == []
  {
    hide FromLe;
  }

  lemma PacketIs(mtu: nat, s: seq<byte>)
    requires |s| >= HEADER && FromLe(s[..HEADER]) <= mtu && FromLe(s[..HEADER]) <= |s| - HEADER
    ensures var n := FromLe(s[..HEADER]);
            Process(mtu, s).Packet? && After(mtu, s) == State(s[HEADER + n..], true) && Emitted(mtu, s) == [s[HEADER..HEADER + n]]
  {
    hide FromLe;
  }

  lemma Appended(head: seq<byte>, start: nat, used: nat, data: seq<byte>)
    requires |head| == start + used
    ensures (head + data)[start..] == head[start..] + data
  {
  }

  class Encoder {
    const inputMtu: nat
    var output: array?<byte>

    constructor (inputMtu: nat)
      requires inputMtu <= MAX_PAYLOAD
      ensures Valid() && this.inputMtu == inputMtu && output == null
    {
      this.inputMtu := inputMtu;
      output := null;
    }

    ghost predicate Valid()
      reads this
    {
      inputMtu <= MAX_PAYLOAD && (output != null ==> output.Length >= HEADER + inputMtu)
    }

    /** The output gave a buffer; the input is asked to write behind the header. */
    method OutputRecv(data: array<byte>) returns (at: nat)
      requires Valid() && output == null && data.Length >= HEADER + inputMtu
      modifies this`output
      ensures Valid() && output == data && at + inputMtu <= data.Length && at == |Encode([])|
    {
      output := data;
      at := HEADER;
    }

    /** The input has written `inLen` bytes of packet; the buffer is finished off to its encoding. */
    method InputDone(inLen: nat) returns (outLen: nat)
      requires Valid() && output != null && inLen <= inputMtu
      modifies this`output, output
      ensures Valid() && output == null
      ensures var b := old(output);
              outLen <= b.Length && b[..outLen] == Encode(old(output[HEADER..HEADER + inLen]))
    {
      var header := ToLe(inLen, HEADER);
      output[0] := header[0];
      output[1] := header[1];
      outLen := HEADER + inLen;
      assert output[..outLen] == header + old(output[HEADER..HEADER + inLen]);
      output := null;
    }
  }
}
