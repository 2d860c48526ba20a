/** Length-framed cache keys (src/core/cache.ts). A byte string is a string of characters below 256. */
module CacheKey {
  import opened Text

  /** What is fed to the hash: for every part its length in decimal, a colon, and its bytes. */
  function Frame(parts: seq<string>): string {
    if parts == [] then "" else Frame(parts[..|parts| - 1]) + FrameOne(parts[|parts| - 1])
  }

  function FrameOne(part: string): string { Decimal(|part|) + ":" + part }

  /** The key of the parts; `digest` is the hash and `utf8` the encoding of a part. */
  function Key(parts: seq<string>, utf8: string -> string, digest: string -> string): string {
    digest(Frame(Encoded(parts, utf8)))
  }

  function Encoded(parts: seq<string>, utf8: string -> string): (r: seq<string>)
    ensures |r| == |parts|
    ensures forall i :: 0 <= i < |r| ==> r[i] == utf8(parts[i])
  {
    seq(|parts|, i requires 0 <= i < |parts| => utf8(parts[i]))
  }

  method BuildKey(parts: seq<string>, utf8: string -> string, digest: string -> string) returns (key: string)
    ensures key == Key(parts, utf8, digest)
  {
    var fed := "";
    ghost var encoded := Encoded(parts, utf8);
    for i := 0 to |parts|
      invariant fed == Frame(encoded[..i])
    {
      var value := utf8(parts[i]);
      fed := fed + Decimal(|value|) + ":";
      fed := fed + value;
      assert encoded[..i + 1][..i] == encoded[..i];
      assert fed == Frame(encoded[..i]) + FrameOne(value);
    }
    assert encoded[..|parts|] == encoded;
    key := digest(fed);
  }

  /******* The framing can be read back *******/

  /** A reader of framed parts; nothing for a text no parts are framed as. */
  function Unframe(s: string): Option<seq<string>>
    decreases |s|
  {
    if s == "" then Some([])
    else
      match ReadNat(s)
      case None => None
      case Some((size, rest)) =>
        if rest == "" || rest[0] != ':' || |rest| - 1 < size then None
        else
          ReadShrinks(s);
          match Unframe(rest[1 + size..])
          case None => None
          case Some(parts) => Some([rest[1..1 + size]] + parts)
  }

  lemma ReadShrinks(s: string)
    ensures ReadNat(s).Some? ==> |ReadNat(s).value.1| < |s|
  {
    if s != "" && IsDigit(s[0]) {
      DigitsShrink(s[1..], DigitValue(s[0]));
    }
  }

  lemma {:induction false} DigitsShrink(s: string, acc: nat)
    ensures |ReadDigits(s, acc).1| <= |s|
  {
    if s != "" && IsDigit(s[0]) {
      DigitsShrink(s[1..], acc * 10 + DigitValue(s[0]));
    }
  }

  lemma {:induction false} FrameFirst(parts: seq<string>)
    requires parts != []
    ensures Frame(parts) == FrameOne(parts[0]) + Frame(parts[1..])
  {
    var n := |parts| - 1;
    if n == 0 {
      assert parts[..0] == [] && parts[1..] == [];
    } else {
      FrameFirst(parts[..n]);
      var middle := parts[1..n];
      assert parts[..n][1..] == middle && parts[1..][..n - 1] == middle;
      assert Frame(parts[1..]) == Frame(middle) + FrameOne(parts[n]);
      assert Frame(parts) == FrameOne(parts[0]) + Frame(middle) + FrameOne(parts[n]);
    }
  }

  /** Whatever was framed is read back, part by part. */
  lemma {:induction false} FrameRoundTrip(parts: seq<string>)
    ensures Unframe(Frame(parts)) == Some(parts)
  {
    if parts != [] {
      FrameRoundTrip(parts[1..]);
      FrameFirst(parts);
      var rest := Frame(parts[1..]);
      OneFrame(parts[0], rest);
      assert parts == [parts[0]] + parts[1..];
    }
  }

  lemma OneFrame(part: string, rest: string)
    requires Unframe(rest).Some?
    ensures Unframe(FrameOne(part) + rest) == Some([part] + Unframe(rest).value)
  {
    var s := FrameOne(part) + rest;
    var tail := ":" + part + rest;
    assert s == Decimal(|part|) + tail;
    DecimalRoundTrip(|part|, tail);
    assert tail[1..1 + |part|] == part && tail[1 + |part|..] == rest;
  }

  ghost predicate Injective(f: string -> string) { forall x, y :: f(x) == f(y) ==> x == y }

  /** Without hash collisions, keys agree exactly when the encoded parts do, one by one. */
  lemma KeysAreUnique(a: seq<string>, b: seq<string>, utf8: string -> string, digest: string -> string)
    requires Injective(digest)
    ensures Key(a, utf8, digest) == Key(b, utf8, digest) <==> Encoded(a, utf8) == Encoded(b, utf8)
  {
    FrameRoundTrip(Encoded(a, utf8));
    FrameRoundTrip(Encoded(b, utf8));
  }
}
