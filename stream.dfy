/**
 * The streaming wrapper around the language-model chat session
 * (install.js:142-147). The provider's chunks and the error it may raise
 * are inputs: `received` holds the chunks delivered before the stream
 * ended or failed, `failure` the failing error's message, if any.
 */
module GeminiStream {
  import opened Wrappers

  /** One chunk of the provider's stream; its `text` may be missing. */
  datatype Chunk = Chunk(text: Option<string>)

  /** `chunk.text || ""`. */
  function TextOf(c: Chunk): string {
    if c.text.Some? then c.text.value else ""
  }

  function Texts(chunks: seq<Chunk>): (r: seq<string>)
    ensures |r| == |chunks|
    ensures forall i :: 0 <= i < |chunks| ==> r[i] == TextOf(chunks[i])
  {
    if chunks == [] then [] else [TextOf(chunks[0])] + Texts(chunks[1..])
  }

  /**
   * The fragments `sendMessageStream` yields: every chunk's text in order,
   * then, when the provider failed, one "Error: " fragment, and nothing after it.
   */
  function Fragments(received: seq<Chunk>, failure: Option<string>): (r: seq<string>)
    ensures |r| == |received| + (if failure.Some? then 1 else 0)
    ensures forall i :: 0 <= i < |received| ==> r[i] == TextOf(received[i])
    ensures failure.Some? ==> r[|received|] == "Error: " + failure.value
  {
    Texts(received) + (if failure.Some? then ["Error: " + failure.value] else [])
  }

  /** `fullContent` after `fullContent += chunk` for each fragment in turn, from ''. */
  function Concat(fragments: seq<string>): string {
    if fragments == [] then "" else Concat(fragments[..|fragments| - 1]) + fragments[|fragments| - 1]
  }

  lemma {:induction false} ConcatAppend(a: seq<string>, b: seq<string>)
    ensures Concat(a + b) == Concat(a) + Concat(b)
  {
    if b == [] {
      assert a + b == a;
    } else {
      assert (a + b)[..|a + b| - 1] == a + b[..|b| - 1];
      ConcatAppend(a, b[..|b| - 1]);
    }
  }

  /** `fullContent` only grows: every value it takes during the loop is a prefix of the final one. */
  lemma {:induction false} ConcatPrefixes(fragments: seq<string>, n: nat)
    requires n <= |fragments|
    ensures Concat(fragments[..n]) <= Concat(fragments)
  {
    if n < |fragments| {
      var init := fragments[..|fragments| - 1];
      assert init[..n] == fragments[..n];
      ConcatPrefixes(init, n);
    } else {
      assert fragments[..n] == fragments;
    }
  }

  /** A failed exchange still shows what arrived before the failure, followed by the error text. */
  lemma FailureKeepsPartialText(received: seq<Chunk>, message: string)
    ensures Concat(Fragments(received, Some(message))) == Concat(Texts(received)) + "Error: " + message
  {
    ConcatAppend(Texts(received), ["Error: " + message]);
    assert Concat(["Error: " + message]) == Concat([]) + "Error: " + message;
  }

  /** The generator of `sendMessageStream`: yields each chunk's text and, on an error, one error fragment. */
  method SendMessageStream(received: seq<Chunk>, failure: Option<string>) returns (fragments: seq<string>)
    ensures fragments == Fragments(received, failure)
  {
    fragments := [];
    var i := 0;
    while i < |received|
      invariant 0 <= i <= |received|
      invariant fragments == Texts(received[..i])
    {
      assert received[..i + 1] == received[..i] + [received[i]];
      assert Texts(received[..i + 1]) == Texts(received[..i]) + [TextOf(received[i])];
      fragments := fragments + [TextOf(received[i])];
      i := i + 1;
    }
    assert received[..i] == received;
    if failure.Some? {
      fragments := fragments + ["Error: " + failure.value];
    }
  }
}
