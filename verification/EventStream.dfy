/**
 Incremental decoding of a server-sent event stream (bench/agentbench.py,
 SSEDecoder): the payloads do not depend on how the bytes were cut into chunks.
 */
module EventStream {
  import opened Common

  type Byte = bv8
  type Bytes = seq<Byte>

  const NEWLINE: Byte := 10

  // "data:"
  const DATA: Bytes := [100, 97, 116, 97, 58]
  // "[DONE]"
  const DONE: Bytes := [91, 68, 79, 78, 69, 93]

  // Space, tab, newline, carriage return, vertical tab, form feed.
  predicate IsSpace(b: Byte) { b == 32 || 9 <= b <= 13 }

  function StripLeft(s: Bytes): Bytes {
    if s != [] && IsSpace(s[0]) then StripLeft(s[1..]) else s
  }

  function StripRight(s: Bytes): Bytes {
    if s != [] && IsSpace(s[|s| - 1]) then StripRight(s[..|s| - 1]) else s
  }

  function Strip(s: Bytes): Bytes { StripRight(StripLeft(s)) }

  predicate AllSpace(s: Bytes) { forall i :: 0 <= i < |s| ==> IsSpace(s[i]) }

  predicate Trimmed(s: Bytes) { s == [] || (!IsSpace(s[0]) && !IsSpace(s[|s| - 1])) }

  lemma {:induction false} StripLeftExact(s: Bytes) returns (n: nat)
    ensures n <= |s| && StripLeft(s) == s[n..] && AllSpace(s[..n]) && (n < |s| ==> !IsSpace(s[n]))
  {
    if s != [] && IsSpace(s[0]) {
      n := StripLeftExact(s[1..]);
      assert s[n + 1..] == s[1..][n..] && s[..n + 1] == [s[0]] + s[1..][..n];
      n := n + 1;
    } else {
      n := 0;
    }
  }

  lemma {:induction false} StripRightExact(s: Bytes) returns (n: nat)
    ensures n <= |s| && StripRight(s) == s[..n] && AllSpace(s[n..]) && (n > 0 ==> !IsSpace(s[n - 1]))
  {
    if s != [] && IsSpace(s[|s| - 1]) {
      var front := s[..|s| - 1];
      n := StripRightExact(front);
      assert s[..n] == front[..n] && s[n..] == front[n..] + [s[|s| - 1]];
    } else {
      n := |s|;
    }
  }

  // Stripping removes surrounding white space and nothing else.
  lemma {:induction false} StripExact(s: Bytes) returns (low: nat, high: nat)
    ensures low <= high <= |s| && Strip(s) == s[low..high] && Trimmed(Strip(s))
    ensures AllSpace(s[..low]) && AllSpace(s[high..])
  {
    low := StripLeftExact(s);
    var n := StripRightExact(s[low..]);
    high := low + n;
    assert s[low..][..n] == s[low..high] && s[low..][n..] == s[high..];
  }

  // ----- Specification: split the whole stream at once

  // Position of the first newline, or the length.
  function FirstNewline(s: Bytes): (k: nat)
    ensures k <= |s| && NEWLINE !in s[..k] && (k < |s| ==> s[k] == NEWLINE)
  {
    if s == [] || s[0] == NEWLINE then 0
    else
      var k := FirstNewline(s[1..]);
      assert s[..1 + k] == [s[0]] + s[1..][..k];
      1 + k
  }

  // The complete lines of a stream.
  function Lines(s: Bytes): seq<Bytes>
    decreases |s|
  {
    var k := FirstNewline(s);
    if k == |s| then [] else [s[..k]] + Lines(s[k + 1..])
  }

  // What follows the last newline.
  function Rest(s: Bytes): (r: Bytes)
    ensures NEWLINE !in r
    decreases |s|
  {
    var k := FirstNewline(s);
    if k == |s| then (assert s[..k] == s; s) else Rest(s[k + 1..])
  }

  lemma {:induction false} Unfold(s: Bytes)
    ensures var k := FirstNewline(s);
            if k == |s| then Lines(s) == [] && Rest(s) == s
            else Lines(s) == [s[..k]] + Lines(s[k + 1..]) && Rest(s) == Rest(s[k + 1..])
  {}

  // The lines and the rest make up the stream again.
  function Unsplit(lines: seq<Bytes>, rest: Bytes): Bytes {
    if lines == [] then rest else lines[0] + [NEWLINE] + Unsplit(lines[1..], rest)
  }

  lemma {:induction false} SplitIsFaithful(s: Bytes)
    ensures Unsplit(Lines(s), Rest(s)) == s
    ensures forall i :: 0 <= i < |Lines(s)| ==> NEWLINE !in Lines(s)[i]
    decreases |s|
  {
    hide Lines, Rest;
    var k := FirstNewline(s);
    Unfold(s);
    if k < |s| {
      SplitIsFaithful(s[k + 1..]);
      assert Lines(s)[1..] == Lines(s[k + 1..]);
      assert s == s[..k] + [NEWLINE] + s[k + 1..];
    }
  }

  // The payload of one line, if it carries one.
  function PayloadOf(line: Bytes): Option<Bytes> {
    var raw := Strip(line);
    if |raw| < |DATA| || raw[..|DATA|] != DATA then None
    else
      var payload := Strip(raw[|DATA|..]);
      if payload == [] || payload == DONE then None else Some(payload)
  }

  function Payloads(lines: seq<Bytes>): seq<Bytes> {
    if lines == [] then []
    else
      var rest := Payloads(lines[1..]);
      match PayloadOf(lines[0])
      case None => rest
      case Some(p) => [p] + rest
  }

  lemma {:induction false} PayloadsConcat(a: seq<Bytes>, b: seq<Bytes>)
    ensures Payloads(a + b) == Payloads(a) + Payloads(b)
  {
    if a == [] {
      assert a + b == b;
    } else {
      assert (a + b)[1..] == a[1..] + b;
      PayloadsConcat(a[1..], b);
    }
  }

  lemma {:induction false} PayloadsAppend(lines: seq<Bytes>, line: Bytes)
    ensures Payloads(lines + [line]) == Payloads(lines) + (match PayloadOf(line) case None => [] case Some(p) => [p])
  {
    PayloadsConcat(lines, [line]);
    assert [line][1..] == [];
  }

  // The first newline of a longer stream is where it was.
  lemma {:induction false} FirstNewlineStays(s: Bytes, t: Bytes)
    requires FirstNewline(s) < |s|
    ensures FirstNewline(s + t) == FirstNewline(s)
  {
    if s[0] != NEWLINE {
      assert (s + t)[1..] == s[1..] + t;
      FirstNewlineStays(s[1..], t);
    }
  }

  // Splitting a stream in two: finish the first part's lines, then carry the
  // rest into the second.
  lemma {:induction false} SplitConcat(s: Bytes, t: Bytes)
    ensures Lines(s + t) == Lines(s) + Lines(Rest(s) + t)
    ensures Rest(s + t) == Rest(Rest(s) + t)
    decreases |s|
  {
    hide Lines, Rest;
    var k := FirstNewline(s);
    Unfold(s);
    if k < |s| {
      var next := s[k + 1..];
      FirstNewlineStays(s, t);
      Unfold(s + t);
      SplitConcat(next, t);
      assert (s + t)[..k] == s[..k];
      assert (s + t)[k + 1..] == next + t;
      calc {
        Lines(s + t);
        [s[..k]] + Lines(next + t);
        [s[..k]] + (Lines(next) + Lines(Rest(next) + t));
        ([s[..k]] + Lines(next)) + Lines(Rest(next) + t);
        Lines(s) + Lines(Rest(s) + t);
      }
    }
  }

  // ----- The decoder

  function Concat(chunks: seq<Bytes>): Bytes {
    if chunks == [] then [] else Concat(chunks[..|chunks| - 1]) + chunks[|chunks| - 1]
  }

  // Payloads are handed over in order; what was handed over so far is kept.
  class Decoder {
    var tail: Bytes
    var payloads: seq<Bytes>

    constructor ()
      ensures tail == [] && payloads == []
    {
      tail, payloads := [], [];
    }

    method Feed(chunk: Bytes)
      modifies this
      ensures payloads == old(payloads) + Payloads(Lines(old(tail) + chunk))
      ensures tail == Rest(old(tail) + chunk) && NEWLINE !in tail
    {
      hide Lines, Rest, Payloads;
      ghost var whole := tail + chunk;
      ghost var before := payloads;
      tail := tail + chunk;
      ghost var taken: seq<Bytes> := [];
      NoPayloads();
      while true
        invariant payloads == before + Payloads(taken)
        invariant taken + Lines(tail) == Lines(whole) && Rest(tail) == Rest(whole)
        decreases |tail|
      {
        var newline := FirstNewline(tail);
        Unfold(tail);
        if newline == |tail| {
          assert taken + [] == taken;
          return;
        }
        var line := tail[..newline];
        assert taken + Lines(tail) == (taken + [line]) + Lines(tail[newline + 1..]);
        PayloadsAppend(taken, line);
        taken := taken + [line];
        tail := tail[newline + 1..];
        var raw := Strip(line);
        if |raw| < |DATA| || raw[..|DATA|] != DATA { continue; }
        var payload := Strip(raw[|DATA|..]);
        if payload == [] || payload == DONE { continue; }
        payloads := payloads + [payload];
      }
    }

    // The end of the stream: a last line without a newline still counts.
    method Finish()
      requires NEWLINE !in tail
      modifies this
      ensures payloads == old(payloads) + Payloads(Lines(old(tail) + [NEWLINE]))
    {
      if Strip(tail) != [] {
        Feed([NEWLINE]);
      } else {
        UnterminatedLine(tail);
        assert PayloadOf(tail) == None;
        assert Payloads([tail]) == [] by { assert [tail][1..] == []; }
      }
    }
  }

  lemma {:induction false} NoPayloads()
    ensures Payloads([]) == []
  {}

  lemma {:induction false} UnterminatedLine(s: Bytes)
    requires NEWLINE !in s
    ensures Lines(s + [NEWLINE]) == [s]
  {
    var t := s + [NEWLINE];
    NewlineAtEnd(s);
    assert t[..|s|] == s && t[|s| + 1..] == [];
  }

  lemma {:induction false} NewlineAtEnd(s: Bytes)
    requires NEWLINE !in s
    ensures FirstNewline(s + [NEWLINE]) == |s|
  {
    if s != [] {
      assert (s + [NEWLINE])[1..] == s[1..] + [NEWLINE];
      assert s[0] in s;
      NewlineAtEnd(s[1..]);
    }
  }

  // Feeding chunk after chunk hands over what splitting the whole stream yields.
  method Decode(chunks: seq<Bytes>) returns (payloads: seq<Bytes>)
    ensures payloads == Payloads(Lines(Concat(chunks) + [NEWLINE]))
  {
    var d := new Decoder();
    for i := 0 to |chunks|
      invariant d.payloads == Payloads(Lines(Concat(chunks[..i])))
      invariant d.tail == Rest(Concat(chunks[..i]))
    {
      assert chunks[..i + 1][..i] == chunks[..i];
      SplitConcat(Concat(chunks[..i]), chunks[i]);
      PayloadsConcat(Lines(Concat(chunks[..i])), Lines(d.tail + chunks[i]));
      d.Feed(chunks[i]);
    }
    assert chunks[..|chunks|] == chunks;
    SplitConcat(Concat(chunks), [NEWLINE]);
    PayloadsConcat(Lines(Concat(chunks)), Lines(d.tail + [NEWLINE]));
    d.Finish();
    payloads := d.payloads;
  }
}
