/** Octets, little-endian fields and in-place writes to an octet buffer. */
module Bytes {
  type byte = x: int | 0 <= x < 0x100
  type uint16 = x: int | 0 <= x < 0x1_0000
  type uint24 = x: int | 0 <= x < 0x100_0000
  type uint32 = x: int | 0 <= x < 0x1_0000_0000

  function Pow256(n: nat): (p: nat)
    ensures p > 0
  {
    if n == 0 then 1 else 256 * Pow256(n - 1)
  }

  /** The `n` octets of `v`, least significant first. */
  function Le(v: nat, n: nat): (s: seq<byte>)
    ensures |s| == n
    decreases n
  {
    if n == 0 then [] else [v % 256] + Le(v / 256, n - 1)
  }

  function FromLe(s: seq<byte>, n: nat): (v: nat)
    requires |s| >= n
    ensures v < Pow256(n)
  {
    if n == 0 then 0 else s[0] as int + 256 * FromLe(s[1..], n - 1)
  }

  lemma {:induction false} LeRoundTrip(v: nat, n: nat, rest: seq<byte>)
    requires v < Pow256(n)
    ensures FromLe(Le(v, n) + rest, n) == v
    decreases n
  {
    if n > 0 {
      LeRoundTrip(v / 256, n - 1, rest);
      assert (Le(v, n) + rest)[1..] == Le(v / 256, n - 1) + rest;
    }
  }

  lemma DropPrefix<T>(a: seq<T>, b: seq<T>)
    ensures (a + b)[|a|..] == b
  {
  }

  /** Bitwise AND of two unsigned numbers. */
  function BitAnd(x: nat, y: nat): (r: nat)
    ensures r <= x && r <= y
  {
    if x == 0 || y == 0 then 0 else (x % 2) * (y % 2) + 2 * BitAnd(x / 2, y / 2)
  }

  /** `after` is `before` with the octets from `at` on replaced by `out`. */
  ghost predicate Patched(before: seq<byte>, after: seq<byte>, at: nat, out: seq<byte>) {
    && |before| == |after|
    && at + |out| <= |before|
    && forall i {:trigger after[i]} | 0 <= i < |before| ::
         after[i] == if at <= i < at + |out| then out[i - at] else before[i]
  }

  lemma PatchTwice(a: seq<byte>, b: seq<byte>, c: seq<byte>, at: nat, first: seq<byte>, second: seq<byte>)
    requires Patched(a, b, at, first) && Patched(b, c, at + |first|, second)
    ensures Patched(a, c, at, first + second)
  {
  }

  /** A length octet that is filled in after the octets that follow it. */
  lemma PatchBack(a: seq<byte>, b: seq<byte>, c: seq<byte>, at: nat, out: seq<byte>, i: nat, v: byte)
    requires Patched(a, b, at, out) && i < |out| && Patched(b, c, at + i, [v])
    ensures Patched(a, c, at, out[i := v])
  {
  }

  lemma PatchedSlice(a: seq<byte>, b: seq<byte>, at: nat, out: seq<byte>)
    requires Patched(a, b, at, out)
    ensures b[at..at + |out|] == out
  {
  }

  method Put(buf: array<byte>, at: nat, out: seq<byte>)
    requires at + |out| <= buf.Length
    modifies buf
    ensures Patched(old(buf[..]), buf[..], at, out)
  {
    forall i | 0 <= i < |out| {
      buf[at + i] := out[i];
    }
  }

  /** Octets copied behind the cursor. */
  method Append(buf: array<byte>, at: nat, p: nat, out: seq<byte>, ghost orig: seq<byte>, ghost done: seq<byte>)
    returns (q: nat, ghost done': seq<byte>)
    requires at + |done| == p && p + |out| <= buf.Length && Patched(orig, buf[..], at, done)
    modifies buf
    ensures q == p + |out| && done' == done + out
    ensures Patched(orig, buf[..], at, done')
  {
    ghost var before := buf[..];
    Put(buf, p, out);
    PatchTwice(orig, before, buf[..], at, done, out);
    q, done' := p + |out|, done + out;
  }

  // ---- length-type-value elements, written only where they fit ----

  function LtvBytes(typ: byte, value: seq<byte>): (s: seq<byte>)
    ensures |s| == 2 + |value|
  {
    [(|value| + 1) % 256, typ] + value
  }

  /** `done`, and behind it `chunk` if the room allows. */
  function Fit(done: seq<byte>, chunk: seq<byte>, maxLen: int): (s: seq<byte>)
    ensures done <= s
  {
    if |chunk| <= maxLen - |done| then done + chunk else done
  }

  method UpdateLtv(buf: array<byte>, at: nat, maxLen: int, typ: byte, value: seq<byte>) returns (n: nat)
    requires |value| <= 255
    requires maxLen >= 2 + |value| ==> at + 2 + |value| <= buf.Length
    requires at <= buf.Length
    modifies buf
    ensures n == if maxLen < 2 + |value| then 0 else 2 + |value|
    ensures Patched(old(buf[..]), buf[..], at, if n == 0 then [] else LtvBytes(typ, value))
  {
    if maxLen < 2 + |value| {
      return 0;
    }
    Put(buf, at, LtvBytes(typ, value));
    return 2 + |value|;
  }

  /** An element written at the cursor `p`, if it is present; `done` is what the buffer holds from `at` on. */
  method FillLtv(buf: array<byte>, at: nat, p: nat, maxLen: int, present: bool, typ: byte, value: seq<byte>,
                 ghost orig: seq<byte>, ghost done: seq<byte>)
    returns (q: nat, ghost done': seq<byte>)
    requires |value| <= 255 && at + |done| == p <= buf.Length && at + maxLen <= buf.Length
    requires Patched(orig, buf[..], at, done)
    modifies buf
    ensures at + |done'| == q <= buf.Length
    ensures done' == if present then Fit(done, LtvBytes(typ, value), maxLen) else done
    ensures Patched(orig, buf[..], at, done')
  {
    q, done' := p, done;
    if present {
      ghost var before := buf[..];
      var n := UpdateLtv(buf, p, maxLen - (p - at), typ, value);
      q := p + n;
      PatchTwice(orig, before, buf[..], at, done, if n == 0 then [] else LtvBytes(typ, value));
      done' := Fit(done, LtvBytes(typ, value), maxLen);
      assert done + [] == done;
    }
  }

  /** An octet reserved at `at + i` and filled in once what follows it is known. */
  method PatchOctet(buf: array<byte>, at: nat, i: nat, v: byte, ghost orig: seq<byte>, ghost done: seq<byte>)
    requires Patched(orig, buf[..], at, done) && i < |done|
    modifies buf
    ensures Patched(orig, buf[..], at, done[i := v])
  {
    ghost var before := buf[..];
    buf[at + i] := v;
    assert Patched(before, buf[..], at + i, [v]);
    PatchBack(orig, before, buf[..], at, done, i, v);
  }
}
