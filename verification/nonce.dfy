/** `randomNonceString`: a rejection sampler drawing random bytes in batches
    of 16 and keeping those that index the 64-character charset. The random
    bytes are an input stream here. */
module Nonce {

  type Byte = b: int | 0 <= b < 256

  const Digits := "0123456789"
  /** The upper-case letters, with no 'W'. */
  const Upper := "ABCDEFGHIJKLMNOPQRSTUVXYZ"
  const Lower := "abcdefghijklmnopqrstuvwxyz"
  const Marks := "-._"

  /** "0123456789ABCDEFGHIJKLMNOPQRSTUVXYZabcdefghijklmnopqrstuvwxyz-._" */
  const Charset: string := Digits + Upper + Lower + Marks

  const BatchSize := 16

  /** 64 characters, so every byte below 64 indexes one; 'W' is missing
      between 'V' and 'X'. */
  lemma CharsetShape()
    ensures |Charset| == 64
    ensures 'W' !in Charset
    ensures 'V' in Charset && 'X' in Charset
  {
    assert 'W' !in Upper;
    assert Upper[21] == 'V' && Upper[22] == 'X';
  }

  /** The characters a byte stream yields: a byte `b` below 64 gives
      `Charset[b]`, any other byte is discarded. */
  function Accepted(bytes: seq<Byte>): (r: string)
    ensures |r| <= |bytes|
    ensures forall c :: c in r ==> c in Charset
    decreases |bytes|
  {
    if bytes == [] then ""
    else
      var last := bytes[|bytes| - 1];
      Accepted(bytes[..|bytes| - 1]) + (if last < |Charset| then [Charset[last]] else "")
  }

  /** Sampling a stream in two pieces gives the same characters. */
  lemma {:induction false} AcceptedAppend(s: seq<Byte>, t: seq<Byte>)
    ensures Accepted(s + t) == Accepted(s) + Accepted(t)
    decreases |t|
  {
    if t == [] {
      assert s + t == s;
    } else {
      var init := t[..|t| - 1];
      assert (s + t)[..|s + t| - 1] == s + init;
      AcceptedAppend(s, init);
    }
  }

  /** The batches, one after the other. */
  function Flatten(batches: seq<seq<Byte>>): seq<Byte>
    decreases |batches|
  {
    if batches == [] then [] else Flatten(batches[..|batches| - 1]) + batches[|batches| - 1]
  }

  /** Taking one more batch appends its bytes. */
  lemma FlattenSnoc(batches: seq<seq<Byte>>, k: nat)
    requires k < |batches|
    ensures Flatten(batches[..k + 1]) == Flatten(batches[..k]) + batches[k]
  {
    assert batches[..k + 1][..k] == batches[..k];
  }

  lemma {:induction false} FlattenAppend(a: seq<seq<Byte>>, b: seq<seq<Byte>>)
    ensures Flatten(a + b) == Flatten(a) + Flatten(b)
    decreases |b|
  {
    if b == [] {
      assert a + b == a;
    } else {
      var init := b[..|b| - 1];
      assert (a + b)[..|a + b| - 1] == a + init;
      assert (a + b)[|a + b| - 1] == b[|b| - 1];
      FlattenAppend(a, init);
      calc {
        Flatten(a + b);
        Flatten(a + init) + b[|b| - 1];
        Flatten(a) + Flatten(init) + b[|b| - 1];
        Flatten(a) + (Flatten(init) + b[|b| - 1]);
      }
    }
  }

  /** While fewer characters have been accepted than the whole stream holds,
      some batch is still untaken. */
  lemma MoreBatches(batches: seq<seq<Byte>>, k: nat)
    requires k <= |batches|
    requires |Accepted(Flatten(batches[..k]))| < |Accepted(Flatten(batches))|
    ensures k < |batches|
  {
    assert batches[..|batches|] == batches;
  }

  /** What the first `k` batches yield is a prefix of what all of them yield. */
  lemma AcceptedPrefix(batches: seq<seq<Byte>>, k: nat)
    requires k <= |batches|
    ensures var head := Accepted(Flatten(batches[..k]));
            |head| <= |Accepted(Flatten(batches))| && head == Accepted(Flatten(batches))[..|head|]
  {
    assert batches == batches[..k] + batches[k..];
    FlattenAppend(batches[..k], batches[k..]);
    AcceptedAppend(Flatten(batches[..k]), Flatten(batches[k..]));
  }

  function Min(a: int, b: int): int {
    if a < b then a else b
  }

  /** One more byte of the batch: it adds its character exactly when
      characters are still wanted and the byte is accepted. */
  lemma TakeStep(remaining: nat, randoms: seq<Byte>, j: nat)
    requires j < |randoms|
    ensures var before := Accepted(randoms[..j]);
            var after := Accepted(randoms[..j + 1]);
            var t0 := before[..Min(remaining, |before|)];
            var t1 := after[..Min(remaining, |after|)];
            t1 == if |t0| < remaining && randoms[j] < |Charset| then t0 + [Charset[randoms[j]]] else t0
  {
    var r := randoms[j];
    assert randoms[..j + 1] == randoms[..j] + [r];
    AcceptedAppend(randoms[..j], [r]);
    var one: seq<Byte> := [r];
    assert Accepted(one) == if r < |Charset| then [Charset[r]] else "" by {
      assert one[..0] == [];
    }
  }

  /** One batch of the `forEach`: appends the characters of the batch's
      accepted bytes while characters are still `remaining`, and stops
      appending as soon as none are. */
  method TakeBatch(result: string, remaining: nat, randoms: seq<Byte>) returns (result': string, remaining': nat)
    ensures var taken := Accepted(randoms)[..Min(remaining, |Accepted(randoms)|)];
            result' == result + taken && remaining' == remaining - |taken|
  {
    result', remaining' := result, remaining;
    var j := 0;
    while j < |randoms|
      invariant 0 <= j <= |randoms|
      invariant var taken := Accepted(randoms[..j])[..Min(remaining, |Accepted(randoms[..j])|)];
                result' == result + taken && remaining' == remaining - |taken|
    {
      var r := randoms[j];
      TakeStep(remaining, randoms, j);
      if remaining' != 0 && r < |Charset| {
        result' := result' + [Charset[r]];
        remaining' := remaining' - 1;
      }
      j := j + 1;
    }
    assert randoms[..j] == randoms;
  }

  /** Given the random bytes, the result is the charset image of the first
      `length` accepted bytes in order; once `length` characters are taken,
      the rest of the current batch is ignored. The stream is required to
      hold enough accepted bytes (the source loops until it does). */
  method RandomNonceString(length: int, batches: seq<seq<Byte>>) returns (r: string)
    requires length > 0
    requires forall i :: 0 <= i < |batches| ==> |batches[i]| == BatchSize
    requires |Accepted(Flatten(batches))| >= length
    ensures |r| == length
    ensures r == Accepted(Flatten(batches))[..length]
    ensures forall c :: c in r ==> c in Charset && c != 'W'
  {
    var result := "";
    var remaining: nat := length;
    var k := 0;
    while remaining > 0
      invariant 0 <= k <= |batches|
      invariant remaining <= length && |result| == length - remaining
      invariant |result| <= |Accepted(Flatten(batches[..k]))|
      invariant result == Accepted(Flatten(batches[..k]))[..|result|]
      invariant remaining > 0 ==> result == Accepted(Flatten(batches[..k]))
      decreases |batches| - k
    {
      MoreBatches(batches, k);
      ghost var before := Accepted(Flatten(batches[..k]));
      FlattenSnoc(batches, k);
      AcceptedAppend(Flatten(batches[..k]), batches[k]);
      assert Accepted(Flatten(batches[..k + 1])) == before + Accepted(batches[k]);
      result, remaining := TakeBatch(result, remaining, batches[k]);
      k := k + 1;
    }
    AcceptedPrefix(batches, k);
    r := result;
    assert r == Accepted(Flatten(batches))[..length];
    CharsetShape();
  }
}
