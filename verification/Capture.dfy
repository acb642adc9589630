/** The capped output capture of the exec tool (packages/agent/src/tools.ts), over single-byte text. */
module Capture {
  function Concat(chunks: seq<string>): string {
    if chunks == [] then "" else Concat(chunks[..|chunks| - 1]) + chunks[|chunks| - 1]
  }

  /** One stream of the child process: what was kept, and whether anything was dropped. */
  class Sink {
    const cap: nat
    var kept: string
    var truncated: bool

    constructor (cap: nat)
      ensures this.cap == cap && kept == "" && !truncated
    {
      this.cap := cap;
      kept := "";
      truncated := false;
    }

    /** The sink's state is determined by the concatenated output alone. */
    ghost predicate Captured(output: string)
      reads this
    {
      kept == (if |output| <= cap then output else output[..cap]) && (truncated <==> |output| > cap)
    }

    /** The 'data' listener. Streams deliver no empty chunk. */
    method OnData(piece: string, ghost output: string)
      requires Captured(output) && piece != ""
      modifies this`kept, this`truncated
      ensures Captured(output + piece)
    {
      if |kept| >= cap {
        truncated := true;
        assert |output| > cap ==> (output + piece)[..cap] == output[..cap];
        return;
      }
      var room := cap - |kept|;
      if |piece| <= room {
        kept := kept + piece;
      } else {
        kept := kept + piece[..room];
        truncated := true;
      }
    }
  }

  /** However the child's output is cut into chunks, the tool keeps its first `cap` characters. */
  method Drain(cap: nat, chunks: seq<string>) returns (kept: string, truncated: bool)
    requires forall c | c in chunks :: c != ""
    ensures kept == (if |Concat(chunks)| <= cap then Concat(chunks) else Concat(chunks)[..cap])
    ensures truncated <==> |Concat(chunks)| > cap
  {
    var sink := new Sink(cap);
    for i := 0 to |chunks|
      invariant sink.Captured(Concat(chunks[..i])) && sink.cap == cap
    {
      assert chunks[..i + 1][..i] == chunks[..i];
      assert chunks[i] in chunks;
      sink.OnData(chunks[i], Concat(chunks[..i]));
    }
    assert chunks[..|chunks|] == chunks;
    return sink.kept, sink.truncated;
  }
}
