/** The rolling match buffer: the text typed since the last reset, cut at the
    front so that it stays near the configured length. */
module MatchBuffer {
  import opened JsValues

  predicate IsSuffix(s: string, t: string) {
    |s| <= |t| && t[|t| - |s|..] == s
  }

  /** `buffer.substring(0, buffer.length - amount)`: drops `amount` characters
      from the end, never more than there are. */
  function ShortenBy(buffer: string, amount: int): (r: string)
    ensures amount <= 0 ==> r == buffer
    ensures 0 <= amount <= |buffer| ==> r == buffer[..|buffer| - amount]
    ensures amount >= |buffer| ==> r == ""
  {
    Substring(buffer, 0, |buffer| - amount)
  }

  /** `buffer.substring(1)` when the buffer is longer than `bufferLength`. */
  function TrimIfNecessary(buffer: string, bufferLength: int): (r: string)
    ensures |buffer| <= bufferLength ==> r == buffer
    ensures |buffer| > bufferLength && buffer != [] ==> r == buffer[1..]
    ensures IsSuffix(r, buffer)
  {
    if |buffer| > bufferLength then Substring(buffer, 1, |buffer|) else buffer
  }

  /** Appending a decoded character and then trimming (`_addCharToBuffer`
      followed by `_shortenBufferIfNecessary`). */
  function AddAndTrim(buffer: string, c: string, bufferLength: int): (r: string)
    ensures IsSuffix(r, buffer + c)
    ensures |buffer + c| <= bufferLength ==> r == buffer + c
    ensures |buffer + c| > bufferLength && buffer + c != [] ==> r == (buffer + c)[1..]
    ensures |buffer| <= bufferLength && |c| <= 1 ==> |r| <= bufferLength
  {
    TrimIfNecessary(buffer + c, bufferLength)
  }

  /** The last `n` characters of `s` (all of it when shorter). */
  function Window(s: string, n: nat): (r: string)
    ensures |r| <= n && IsSuffix(r, s)
    ensures |s| <= n ==> r == s
  {
    if |s| <= n then s else s[|s| - n..]
  }

  function Concat(cs: seq<string>): string {
    if cs == [] then "" else cs[0] + Concat(cs[1..])
  }

  /** Typing the characters `cs` one after another into the buffer. */
  function TypeAll(buffer: string, cs: seq<string>, bufferLength: int): string
    decreases |cs|
  {
    if cs == [] then buffer else TypeAll(AddAndTrim(buffer, cs[0], bufferLength), cs[1..], bufferLength)
  }

  /** The window of the last `n` characters does not depend on what came
      before the previous window. */
  lemma WindowOfWindow(s: string, c: string, n: nat)
    ensures Window(Window(s, n) + c, n) == Window(s + c, n)
  {
    if |s| > n {
      var w := s[|s| - n..];
      if |w + c| > n {
        assert (w + c)[|w + c| - n..] == (s + c)[|s + c| - n..];
      } else {
        assert c == [];
        assert s + c == s;
      }
    }
  }

  /** One typed character keeps the buffer equal to the last `bufferLength`
      characters typed. */
  lemma AddAndTrimIsWindow(buffer: string, c: string, bufferLength: nat)
    requires |buffer| <= bufferLength && |c| == 1
    ensures AddAndTrim(buffer, c, bufferLength) == Window(buffer + c, bufferLength)
  {
  }

  /** Typing single characters into a buffer within bounds keeps exactly the
      most recent `bufferLength` characters (first in, first out). */
  lemma {:induction false} TypingKeepsMostRecent(buffer: string, cs: seq<string>, bufferLength: nat)
    requires |buffer| <= bufferLength
    requires forall i :: 0 <= i < |cs| ==> |cs[i]| == 1
    ensures TypeAll(buffer, cs, bufferLength) == Window(buffer + Concat(cs), bufferLength)
    decreases |cs|
  {
    if cs != [] {
      var b := AddAndTrim(buffer, cs[0], bufferLength);
      AddAndTrimIsWindow(buffer, cs[0], bufferLength);
      TypingKeepsMostRecent(b, cs[1..], bufferLength);
      WindowOfWindow(buffer + cs[0], Concat(cs[1..]), bufferLength);
      assert buffer + cs[0] + Concat(cs[1..]) == buffer + Concat(cs);
    }
  }

  /** A decoded value longer than one character (a dead-key sequence, say) is
      trimmed by one character only, so the buffer can outgrow its bound. */
  lemma LongCharacterOutgrowsBound(buffer: string, c: string, n: nat)
    requires |buffer| == n && |c| == 2
    ensures |AddAndTrim(buffer, c, n)| == n + 1
  {
  }
}
