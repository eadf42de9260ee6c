/** The line-buffering logger of a test. */
module Logger {
  type Byte = x: int | 0 <= x < 256
  type Bytes = seq<Byte>

  const NEWLINE: Byte := 10

  /** bytes.Split at newlines: never empty, and one piece more than there are newlines. */
  function Split(s: Bytes): (pieces: seq<Bytes>)
    ensures |pieces| > 0
  {
    if s == [] then [[]]
    else Grown(Split(s[..|s| - 1]), s[|s| - 1])
  }

  /** What one more byte does to the pieces. */
  function Grown(pieces: seq<Bytes>, b: Byte): (r: seq<Bytes>)
    requires pieces != []
    ensures r != []
  {
    var n := |pieces| - 1;
    if b == NEWLINE then pieces + [[]] else pieces[..n] + [pieces[n] + [b]]
  }

  /** The pieces put together again with newlines between them. */
  function Join(pieces: seq<Bytes>): Bytes
    requires pieces != []
  {
    if |pieces| == 1 then pieces[0]
    else Join(pieces[..|pieces| - 1]) + [NEWLINE] + pieces[|pieces| - 1]
  }

  function Lines(s: Bytes): seq<Bytes> { Split(s)[..|Split(s)| - 1] }

  function Remainder(s: Bytes): Bytes { Split(s)[|Split(s)| - 1] }

  function Concat(chunks: seq<Bytes>): Bytes
  {
    if chunks == [] then [] else Concat(chunks[..|chunks| - 1]) + chunks[|chunks| - 1]
  }

  // ----- splitting loses nothing and no piece holds a newline -----

  lemma JoinGrown(pieces: seq<Bytes>, b: Byte)
    requires pieces != []
    ensures Join(Grown(pieces, b)) == Join(pieces) + [b]
  {
    var n, grown := |pieces| - 1, Grown(pieces, b);
    if b == NEWLINE {
      assert grown[..n + 1] == pieces;
    } else if n > 0 {
      assert grown[..n] == pieces[..n];
      assert grown[n] == pieces[n] + [b];
    }
  }

  lemma GrownHasNoNewline(pieces: seq<Bytes>, b: Byte)
    requires pieces != [] && forall i :: 0 <= i < |pieces| ==> NEWLINE !in pieces[i]
    ensures forall i :: 0 <= i < |Grown(pieces, b)| ==> NEWLINE !in Grown(pieces, b)[i]
  {
  }

  lemma {:induction false} SplitJoins(s: Bytes)
    ensures Join(Split(s)) == s
    ensures forall i :: 0 <= i < |Split(s)| ==> 10 !in Split(s)[i]
  {
    if s == [] {
    } else {
      var n := |s| - 1;
      SplitJoins(s[..n]);
      assert s == s[..n] + [s[n]];
      JoinGrown(Split(s[..n]), s[n]);
      GrownHasNoNewline(Split(s[..n]), s[n]);
    }
  }

  /** One more byte. */
  lemma SplitByte(s: Bytes, b: Byte)
    ensures Lines(s + [b]) == Lines(s) + if b == NEWLINE then [Remainder(s)] else []
    ensures Remainder(s + [b]) == if b == NEWLINE then [] else Remainder(s) + [b]
  {
  }

  lemma SplitTogether(s: Bytes, t: Bytes, before: seq<Bytes>, b: Byte)
    requires Lines(s) == before + Lines(t) && Remainder(s) == Remainder(t)
    ensures Lines(s + [b]) == before + Lines(t + [b]) && Remainder(s + [b]) == Remainder(t + [b])
  {
    SplitByte(s, b);
    SplitByte(t, b);
  }

  /** Splitting what was kept together with what comes next continues the split of the whole. */
  lemma {:induction false} SplitAppend(s: Bytes, t: Bytes)
    ensures Lines(s + t) == Lines(s) + Lines(Remainder(s) + t)
    ensures Remainder(s + t) == Remainder(Remainder(s) + t)
  {
    if t == [] {
      assert s + t == s && Remainder(s) + t == Remainder(s);
      RemainderIsOnePiece(s);
      assert Lines(Remainder(s)) == [];
    } else {
      var n := |t| - 1;
      SplitAppend(s, t[..n]);
      SplitTogether(s + t[..n], Remainder(s) + t[..n], Lines(s), t[n]);
      assert s + t == s + t[..n] + [t[n]] && Remainder(s) + t == Remainder(s) + t[..n] + [t[n]];
    }
  }

  lemma {:induction false} RemainderIsOnePiece(s: Bytes)
    ensures Split(Remainder(s)) == [Remainder(s)]
  {
    SplitJoins(s);
    NoNewlineOnePiece(Remainder(s));
  }

  lemma {:induction false} NoNewlineOnePiece(s: Bytes)
    requires NEWLINE !in s
    ensures Split(s) == [s]
  {
    if s == [] {
    } else {
      NoNewlineOnePiece(s[..|s| - 1]);
      assert s == s[..|s| - 1] + [s[|s| - 1]];
    }
  }

  // ----- the code -----

  class TestLogger {
    var buffer: Bytes
    var logged: seq<Bytes>   // what was passed to test.Log, without prefixes

    constructor ()
      ensures buffer == [] && logged == []
    {
      buffer, logged := [], [];
    }

    method Log(line: Bytes)
      modifies this`logged
      ensures logged == old(logged) + [line]
    {
      logged := logged + [line];
    }

    /** Logs every complete line and keeps the rest. */
    method Write(p: Bytes) returns (n: nat)
      modifies this
      ensures n == |p|
      ensures logged == old(logged) + Lines(old(buffer) + p) && buffer == Remainder(old(buffer) + p)
    {
      buffer := buffer + p;
      var splitBuf := Split(buffer);
      buffer := splitBuf[|splitBuf| - 1];
      for i := 0 to |splitBuf| - 1
        invariant logged == old(logged) + splitBuf[..i]
        invariant buffer == splitBuf[|splitBuf| - 1]
      {
        Log(splitBuf[i]);
      }
      return |p|;
    }

    /** Logs what is left as a line of its own. */
    method Flush()
      modifies this
      ensures buffer == [] && logged == old(logged) + if old(buffer) == [] then [] else [old(buffer)]
    {
      if |buffer| != 0 {
        Log(buffer);
        buffer := [];
      }
    }

    /** Logging does not depend on how the stream is cut: after any chunks, the lines logged are those of the whole
        stream, and the buffer is what follows its last newline. */
    method WriteAll(chunks: seq<Bytes>)
      modifies this
      requires buffer == [] && logged == []
      ensures logged == Lines(Concat(chunks)) && buffer == Remainder(Concat(chunks))
      ensures NEWLINE !in buffer && Join(logged + [buffer]) == Concat(chunks)
    {
      for i := 0 to |chunks|
        invariant logged == Lines(Concat(chunks[..i])) && buffer == Remainder(Concat(chunks[..i]))
      {
        assert chunks[..i + 1][..i] == chunks[..i];
        SplitAppend(Concat(chunks[..i]), chunks[i]);
        var _ := Write(chunks[i]);
      }
      assert chunks[..|chunks|] == chunks;
      SplitJoins(Concat(chunks));
      assert logged + [buffer] == Split(Concat(chunks));
    }
  }

  /** The lines and the buffer after a sequence of writes. */
  function Logged(chunks: seq<Bytes>): (seq<Bytes>, Bytes)
  {
    if chunks == [] then ([], [])
    else
      var before := Logged(chunks[..|chunks| - 1]);
      var s := before.1 + chunks[|chunks| - 1];
      (before.0 + Lines(s), Remainder(s))
  }

  /** Two ways of cutting one stream log the same lines and keep the same rest; flushing loses no byte. */
  lemma {:induction false} ChunkingIndependent(chunks: seq<Bytes>)
    ensures Logged(chunks) == (Lines(Concat(chunks)), Remainder(Concat(chunks)))
    ensures NEWLINE !in Logged(chunks).1 && Join(Logged(chunks).0 + [Logged(chunks).1]) == Concat(chunks)
  {
    SplitJoins(Concat(chunks));
    assert Lines(Concat(chunks)) + [Remainder(Concat(chunks))] == Split(Concat(chunks));
    if chunks != [] {
      var n := |chunks| - 1;
      ChunkingIndependent(chunks[..n]);
      SplitAppend(Concat(chunks[..n]), chunks[n]);
    }
  }
}
