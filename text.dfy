/** Bytes, Go string literals, and the little JSON reading the ledgers' output admits.

    A Go `string` and a Go `[]byte` are both sequences of bytes, and the conversions
    `[]byte(s)` and `string(b)` keep every byte, so the model uses one type for both. */
module Text {

  /** One Go byte. */
  newtype byte = b: int | 0 <= b < 256

  type Bytes = seq<byte>

  /** The bytes of a Go string literal. Every literal in this model is ASCII, for which
      a character's code is its byte. */
  function Lit(s: string): Bytes
  {
    seq(|s|, i requires 0 <= i < |s| => (s[i] as int % 256) as byte)
  }

  /** The byte `"`, which opens and closes a JSON string. */
  const Quote: byte := 34

  predicate NoQuote(s: Bytes)
  {
    forall i :: 0 <= i < |s| ==> s[i] != Quote
  }

  /** The bytes of `s` before its first `"`: how a JSON reader takes the value of a
      string that holds no escapes, once it stands after the opening quote. */
  function TakeUntilQuote(s: Bytes): (r: Bytes)
    ensures r <= s && NoQuote(r)
    ensures |r| < |s| ==> s[|r|] == Quote
  {
    if s == [] || s[0] == Quote then [] else [s[0]] + TakeUntilQuote(s[1..])
  }

  /** The middle of a concatenation is found at the length of its head. */
  lemma SliceOfConcat(head: Bytes, middle: Bytes, tail: Bytes)
    ensures (head + middle + tail)[..|head|] == head
    ensures (head + middle + tail)[|head|..|head| + |middle|] == middle
    ensures (head + middle + tail)[|head|..] == middle + tail
  {
    assert head + middle + tail == head + (middle + tail);
  }

  /** In `open + value + close + payload + rest`, where `close` starts with a quote, the
      payload sits right after the close and a value without quotes is read back. */
  lemma QuotedThenPayload(open: Bytes, value: Bytes, close: Bytes, payload: Bytes, rest: Bytes)
    requires close != [] && close[0] == Quote
    ensures var s := open + value + close + payload + rest;
      && s[..|open|] == open
      && |open| + |value| + |close| + |payload| <= |s|
      && s[|open| + |value| + |close|..|open| + |value| + |close| + |payload|] == payload
      && (NoQuote(value) ==> TakeUntilQuote(s[|open|..]) == value)
  {
    var s := open + value + close + payload + rest;
    SliceOfConcat(open + value + close, payload, rest);
    var after := close + payload + rest;
    assert s == open + value + after;
    SliceOfConcat(open, value, after);
    if NoQuote(value) {
      TakeUntilQuoteReadsValue(value, after);
    }
  }

  /** A value without quotes, followed by a quote, is read back exactly. */
  lemma {:induction false} TakeUntilQuoteReadsValue(a: Bytes, b: Bytes)
    requires NoQuote(a) && b != [] && b[0] == Quote
    ensures TakeUntilQuote(a + b) == a
  {
    if a == [] {
      assert a + b == b;
    } else {
      assert (a + b)[1..] == a[1..] + b;
      TakeUntilQuoteReadsValue(a[1..], b);
    }
  }
}

module Wrappers {
  datatype Option<+T> = None | Some(value: T)
}
