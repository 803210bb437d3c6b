/** internal/agent/fs/meta.go: whether the head of a file looks binary.

    `RuneSize` is what utf8.DecodeRune accepts, which is the grammar of section 4
    of RFC 3629; `Encode` is the encoding of section 3, and the two are proved to
    describe the same byte strings.
  */
module Utf8 {
  import opened Bytes

  const SniffBytes: nat := 8 * 1024

  // ---------------------------------------------- section 4: the grammar

  predicate Tail(b: Byte) { 0x80 <= b <= 0xBF }

  /** utf8.RuneStart. */
  predicate RuneStart(b: Byte) { !Tail(b) }

  predicate TailsAt(b: Bytes, i: nat, n: nat) {
    i + n <= |b| && forall k :: i <= k < i + n ==> Tail(b[k])
  }

  /** The size of the well-formed sequence at b[i], 0 when there is none. */
  function RuneSize(b: Bytes, i: nat): (n: nat)
    ensures n == 0 || (n <= 4 && i + n <= |b|)
  {
    if i >= |b| then 0
    else
      var c := b[i];
      if c < 0x80 then 1
      else if 0xC2 <= c <= 0xDF && TailsAt(b, i + 1, 1) then 2
      else if 0xE0 <= c <= 0xEF && TailsAt(b, i + 1, 2) && SecondOk(c, b[i + 1]) then 3
      else if 0xF0 <= c <= 0xF4 && TailsAt(b, i + 1, 3) && SecondOk(c, b[i + 1]) then 4
      else 0
  }

  /** The first bytes that narrow the second. */
  predicate SecondOk(first: Byte, second: Byte) {
    && (first == 0xE0 ==> second >= 0xA0)
    && (first == 0xED ==> second <= 0x9F)
    && (first == 0xF0 ==> second >= 0x90)
    && (first == 0xF4 ==> second <= 0x8F)
  }

  /** utf8.Valid(b[i:]). */
  predicate ValidFrom(b: Bytes, i: nat)
    decreases |b| - i
  {
    i >= |b| || (RuneSize(b, i) > 0 && ValidFrom(b, i + RuneSize(b, i)))
  }

  predicate Valid(b: Bytes) { ValidFrom(b, 0) }

  // ---------------------------------------------- section 3: the encoding

  predicate Scalar(cp: int) { 0 <= cp < 0xD800 || 0xE000 <= cp < 0x11_0000 }

  function Encode(cp: int): (b: Bytes)
    requires Scalar(cp)
    ensures 1 <= |b| <= 4
  {
    if cp < 0x80 then [cp]
    else if cp < 0x800 then [0xC0 + cp / 64, 0x80 + cp % 64]
    else if cp < 0x1_0000 then [0xE0 + cp / 4096, 0x80 + cp / 64 % 64, 0x80 + cp % 64]
    else [0xF0 + cp / 262144, 0x80 + cp / 4096 % 64, 0x80 + cp / 64 % 64, 0x80 + cp % 64]
  }

  predicate Scalars(cps: seq<int>) { forall k :: 0 <= k < |cps| ==> Scalar(cps[k]) }

  function EncodeAll(cps: seq<int>): Bytes
    requires Scalars(cps)
  {
    if cps == [] then [] else Encode(cps[0]) + EncodeAll(cps[1..])
  }

  /** Bytes pre[i..] start with an encoded character. */
  predicate EncodedAt(b: Bytes, i: nat, cp: int)
    requires Scalar(cp)
  {
    i + |Encode(cp)| <= |b| && forall k :: 0 <= k < |Encode(cp)| ==> b[i + k] == Encode(cp)[k]
  }

  lemma EncodedDecodes(b: Bytes, i: nat, cp: int)
    requires Scalar(cp) && EncodedAt(b, i, cp)
    ensures RuneSize(b, i) == |Encode(cp)|
  {
    if cp < 0x80 {
      assert b[i + 0] == cp;
    } else if cp < 0x800 {
      assert b[i + 0] == Encode(cp)[0] && b[i + 1] == Encode(cp)[1];
      assert 2 <= cp / 64 <= 31;
    } else if cp < 0x1_0000 {
      assert b[i + 0] == Encode(cp)[0] && b[i + 1] == Encode(cp)[1] && b[i + 2] == Encode(cp)[2];
      Digits3(cp);
    } else {
      assert b[i + 0] == Encode(cp)[0] && b[i + 1] == Encode(cp)[1];
      assert b[i + 2] == Encode(cp)[2] && b[i + 3] == Encode(cp)[3];
      Digits4(cp);
    }
  }

  lemma Digits3(cp: int)
    requires Scalar(cp) && 0x800 <= cp < 0x1_0000
    ensures 0 <= cp / 4096 <= 15 && 0 <= cp / 64 % 64 < 64
    ensures cp / 4096 == 0 ==> cp / 64 % 64 >= 32
    ensures cp / 4096 == 13 ==> cp / 64 % 64 < 32
  {
    assert cp / 64 == cp / 4096 * 64 + cp / 64 % 64;
  }

  lemma Digits4(cp: int)
    requires 0x1_0000 <= cp < 0x11_0000
    ensures 0 <= cp / 262144 <= 4 && 0 <= cp / 4096 % 64 < 64 && 0 <= cp / 64 % 64 < 64
    ensures cp / 262144 == 0 ==> cp / 4096 % 64 >= 16
    ensures cp / 262144 == 4 ==> cp / 4096 % 64 < 16
  {
    assert cp / 4096 == cp / 262144 * 64 + cp / 4096 % 64;
  }

  lemma JoinTwo(h: int, t: int)
    requires 0 <= t < 64
    ensures (h * 64 + t) / 64 == h && (h * 64 + t) % 64 == t
  {
  }

  /** The character a well-formed sequence stands for. */
  function CodePoint(b: Bytes, i: nat): int
    requires RuneSize(b, i) > 0
  {
    var first: int := b[i];
    match RuneSize(b, i)
    case 1 => first
    case 2 => (first - 0xC0) * 64 + TailBits(b, i + 1)
    case 3 => ((first - 0xE0) * 64 + TailBits(b, i + 1)) * 64 + TailBits(b, i + 2)
    case _ => (((first - 0xF0) * 64 + TailBits(b, i + 1)) * 64 + TailBits(b, i + 2)) * 64 + TailBits(b, i + 3)
  }

  function TailBits(b: Bytes, i: nat): (bits: int)
    requires i < |b|
    ensures Tail(b[i]) ==> 0 <= bits < 64
  {
    var c: int := b[i];
    c - 0x80
  }

  lemma DecodedEncodes(b: Bytes, i: nat)
    requires RuneSize(b, i) > 0
    ensures Scalar(CodePoint(b, i)) && |Encode(CodePoint(b, i))| == RuneSize(b, i)
    ensures EncodedAt(b, i, CodePoint(b, i))
  {
    var n, cp := RuneSize(b, i), CodePoint(b, i);
    if n == 2 {
      JoinTwo(b[i] as int - 0xC0, TailBits(b, i + 1));
    } else if n == 3 {
      DecodedEncodes3(b, i);
    } else if n == 4 {
      DecodedEncodes4(b, i);
    }
  }

  lemma DecodedEncodes3(b: Bytes, i: nat)
    requires RuneSize(b, i) == 3
    ensures Scalar(CodePoint(b, i)) && |Encode(CodePoint(b, i))| == 3 && EncodedAt(b, i, CodePoint(b, i))
  {
    var cp := CodePoint(b, i);
    var h, m, t := b[i] as int - 0xE0, TailBits(b, i + 1), TailBits(b, i + 2);
    assert Tail(b[i + 1]) && Tail(b[i + 2]);
    JoinTwo(h, m);
    JoinTwo(h * 64 + m, t);
    assert cp / 64 == h * 64 + m && cp / 4096 == h;
    assert Encode(cp) == [b[i], b[i + 1], b[i + 2]];
  }

  lemma DecodedEncodes4(b: Bytes, i: nat)
    requires RuneSize(b, i) == 4
    ensures Scalar(CodePoint(b, i)) && |Encode(CodePoint(b, i))| == 4 && EncodedAt(b, i, CodePoint(b, i))
  {
    var cp := CodePoint(b, i);
    var h, l, m, t := b[i] as int - 0xF0, TailBits(b, i + 1), TailBits(b, i + 2), TailBits(b, i + 3);
    assert Tail(b[i + 1]) && Tail(b[i + 2]) && Tail(b[i + 3]);
    JoinTwo(h, l);
    JoinTwo(h * 64 + l, m);
    JoinTwo((h * 64 + l) * 64 + m, t);
    assert cp / 64 == (h * 64 + l) * 64 + m && cp / 4096 == h * 64 + l && cp / 262144 == h;
    assert Encode(cp) == [b[i], b[i + 1], b[i + 2], b[i + 3]];
  }

  lemma {:induction false} ValidIsEncoded(b: Bytes, i: nat) returns (cps: seq<int>)
    requires i <= |b| && ValidFrom(b, i)
    ensures Scalars(cps) && b[i..] == EncodeAll(cps)
    decreases |b| - i
  {
    if i == |b| {
      cps := [];
    } else {
      var cp, n := CodePoint(b, i), RuneSize(b, i);
      DecodedEncodes(b, i);
      var rest := ValidIsEncoded(b, i + n);
      cps := [cp] + rest;
      assert cps[1..] == rest;
      assert b[i..i + n] == Encode(cp);
      SplitSlice(b, i, i + n, |b|);
      assert b[i..|b|] == b[i..] && b[i + n..|b|] == b[i + n..];
    }
  }

  lemma {:induction false} EncodedIsValid(cps: seq<int>, b: Bytes, i: nat)
    requires Scalars(cps) && i <= |b| && b[i..] == EncodeAll(cps)
    ensures ValidFrom(b, i)
    decreases |cps|
  {
    if cps == [] {
      assert i == |b|;
    } else {
      var e, rest := Encode(cps[0]), EncodeAll(cps[1..]);
      assert b[i..] == e + rest;
      forall k | 0 <= k < |e|
        ensures b[i + k] == e[k]
      {
        assert b[i..][k] == (e + rest)[k];
      }
      EncodedDecodes(b, i, cps[0]);
      assert b[i + |e|..] == b[i..][|e|..] == rest;
      EncodedIsValid(cps[1..], b, i + |e|);
    }
  }

  /** What utf8.Valid accepts is exactly the encodings of scalar values. */
  lemma ValidIffEncoded(b: Bytes)
    ensures Valid(b) <==> exists cps :: Scalars(cps) && b == EncodeAll(cps)
  {
    assert b[0..] == b;
    if Valid(b) {
      var cps := ValidIsEncoded(b, 0);
    }
    if cps :| Scalars(cps) && b == EncodeAll(cps) {
      EncodedIsValid(cps, b, 0);
    }
  }

  // ------------------------------------------------------------ sniffing

  /** The scan of trimPartialRune from index i down: how many bytes are kept. */
  function Scan(b: Bytes, i: int): (n: nat)
    requires i < |b|
    ensures n <= |b|
    decreases i
  {
    if i < 0 || i <= |b| - 4 then |b|
    else if RuneStart(b[i]) then if RuneSize(b, i) == 0 then i else |b|
    else Scan(b, i - 1)
  }

  function Kept(b: Bytes): (n: nat)
    ensures n <= |b|
  {
    if |b| < SniffBytes then |b| else Scan(b, |b| - 1)
  }

  predicate Binary(head: Bytes) { 0 in head || !Valid(head[..Kept(head)]) }

  method TrimPartialRune(b: Bytes) returns (r: Bytes)
    ensures r == b[..Kept(b)]
  {
    if |b| < SniffBytes {
      return b;
    }
    var i := |b| - 1;
    while i >= 0 && i > |b| - 4
      invariant i < |b| && Scan(b, i) == Scan(b, |b| - 1)
    {
      if RuneStart(b[i]) {
        if RuneSize(b, i) == 0 {
          return b[..i];
        }
        return b;
      }
      i := i - 1;
    }
    return b;
  }

  method LooksBinary(head: Bytes) returns (binary: bool)
    ensures binary <==> Binary(head)
  {
    for i := 0 to |head|
      invariant forall k :: 0 <= k < i ==> head[k] != 0
    {
      if head[i] == 0 {
        return true;
      }
    }
    var trimmed := TrimPartialRune(head);
    return !Valid(trimmed);
  }

  /** In valid text every byte that is not a tail starts a character. */
  lemma {:induction false} StartsAreBoundaries(b: Bytes, i: nat, j: nat)
    requires ValidFrom(b, i) && i <= j < |b| && RuneStart(b[j])
    ensures ValidFrom(b, j)
    decreases j - i
  {
    if i < j {
      var n := RuneSize(b, i);
      assert j >= i + n;
      StartsAreBoundaries(b, i + n, j);
    }
  }

  /** b is whole characters, then k bytes, the first of them no tail and all others
      tails, at which no character is complete; whether one could be is not asked. */
  predicate CutInside(b: Bytes, k: nat) {
    && k <= |b|
    && Valid(b[..|b| - k])
    && (k > 0 ==> RuneStart(b[|b| - k]) && RuneSize(b, |b| - k) == 0)
    && (k > 0 ==> TailsAt(b, |b| - k + 1, k - 1))
  }

  lemma {:induction false} ScanStops(b: Bytes, i: int, k: nat)
    requires 0 < k <= 3 && k <= |b| && |b| - k <= i < |b|
    requires RuneStart(b[|b| - k]) && TailsAt(b, |b| - k + 1, k - 1)
    ensures Scan(b, i) == if RuneSize(b, |b| - k) == 0 then |b| - k else |b|
    decreases i
  {
    if i > |b| - k {
      ScanStops(b, i - 1, k);
    }
  }

  /** What the sniff decides, both ways: a head shorter than the window has to be
      valid; a full one may also end in up to three bytes that complete no character.
      NUL is binary either way. */
  lemma BinaryExactly(head: Bytes)
    ensures |head| < SniffBytes ==> (!Binary(head) <==> 0 !in head && Valid(head))
    ensures |head| >= SniffBytes ==> (!Binary(head) <==> 0 !in head && exists k: nat :: k <= 3 && CutInside(head, k))
  {
    var n := |head|;
    if n < SniffBytes {
      assert head[..n] == head;
    } else {
      if k: nat :| k <= 3 && CutInside(head, k) {
        if k == 0 {
          assert head[..n - 0] == head;
          ValidScans(head, n - 1);
          assert head[..Kept(head)] == head;
        } else {
          ScanStops(head, n - 1, k);
        }
      }
      if !Binary(head) {
        ScanFinds(head, n - 1);
        var k := n - Kept(head);
        assert CutInside(head, k);
      }
    }
  }

  lemma {:induction false} ValidScans(b: Bytes, i: int)
    requires Valid(b) && i < |b|
    ensures Scan(b, i) == |b|
    decreases i
  {
    if i >= 0 && i > |b| - 4 {
      if RuneStart(b[i]) {
        StartsAreBoundaries(b, 0, i);
      } else {
        ValidScans(b, i - 1);
      }
    }
  }

  lemma {:induction false} ScanFinds(b: Bytes, i: int)
    requires -1 <= i < |b| && i >= |b| - 4
    requires TailsAt(b, i + 1, |b| - 1 - i)
    ensures var k := |b| - Scan(b, i);
            k <= 3 && (k > 0 ==> RuneStart(b[|b| - k]) && RuneSize(b, |b| - k) == 0 && TailsAt(b, |b| - k + 1, k - 1))
    decreases i
  {
    if i >= 0 && i > |b| - 4 && !RuneStart(b[i]) {
      ScanFinds(b, i - 1);
    }
  }

  /** Cutting valid text at w cuts it inside at most one character. */
  lemma {:induction false} CutText(f: Bytes, w: nat, i: nat) returns (m: nat)
    requires ValidFrom(f, i) && i <= w <= |f|
    ensures i <= m <= w && ValidFrom(f[..m], i) && ValidFrom(f, m)
    ensures m == w || m + RuneSize(f, m) > w
    decreases w - i
  {
    if i == w || i + RuneSize(f, i) > w {
      m := i;
    } else {
      m := CutText(f, w, i + RuneSize(f, i));
      SizeInPrefix(f, m, i);
    }
  }

  lemma SizeInPrefix(f: Bytes, w: nat, i: nat)
    requires i <= w <= |f| && RuneSize(f, i) > 0
    ensures RuneSize(f[..w], i) == if i + RuneSize(f, i) <= w then RuneSize(f, i) else 0
  {
    var n := RuneSize(f, i);
    assert forall k :: i + 1 <= k < i + n ==> Tail(f[k]);
  }

  /** A file of NUL-free valid UTF-8 is never judged binary, wherever the window
      cuts it. */
  lemma TextIsNeverBinary(f: Bytes)
    requires Valid(f) && 0 !in f
    ensures !Binary(f[..if |f| < 8192 then |f| else 8192])
  {
    var w := if |f| < SniffBytes then |f| else SniffBytes;
    var head := f[..w];
    if |f| < SniffBytes {
      assert head == f;
      BinaryExactly(head);
    } else {
      var k := CutOfText(f, w);
      assert CutInside(head, k);
      BinaryExactly(head);
    }
  }

  /** The converse fails: a full window may end in a byte no text contains. */
  lemma WindowMayEndInJunk()
    ensures var head := seq(SniffBytes - 1, (_: int) => 97 as Byte) + [0xFF];
            !Binary(head) && forall f: Bytes :: head <= f ==> !Valid(f)
  {
    var text := seq(SniffBytes - 1, (_: int) => 97 as Byte);
    var head := text + [0xFF];
    AsciiIsValid(text, 0);
    assert head[..|head| - 1] == text;
    assert CutInside(head, 1);
    BinaryExactly(head);
    forall f: Bytes | head <= f
      ensures !Valid(f)
    {
      if Valid(f) {
        assert f[SniffBytes - 1] == 0xFF;
        StartsAreBoundaries(f, 0, SniffBytes - 1);
        assert false;
      }
    }
  }

  // ------------------------------------------- when the converse holds

  /** The size a sequence's first byte promises, 0 if it can be no first byte of
      more than one. */
  function Promised(first: Byte): nat {
    if 0xC2 <= first <= 0xDF then 2
    else if 0xE0 <= first <= 0xEF then 3
    else if 0xF0 <= first <= 0xF4 then 4
    else 0
  }

  /** b[i..] is the beginning of a character, and not all of it. */
  predicate Begun(b: Bytes, i: nat) {
    && i < |b| < i + Promised(b[i]) && TailsAt(b, i + 1, |b| - i - 1)
    && (|b| - i >= 2 ==> SecondOk(b[i], b[i + 1]))
  }

  /** A text without NUL begins with these bytes. */
  ghost predicate BeginsText(head: Bytes) { exists f: Bytes :: Valid(f) && 0 !in f && head <= f }

  /** Bytes that finish what was begun. */
  function Missing(b: Bytes, i: nat): (rest: Bytes)
    requires Begun(b, i)
    ensures |rest| == i + Promised(b[i]) - |b| && forall k :: 0 <= k < |rest| ==> Tail(rest[k])
  {
    var n := i + Promised(b[i]) - |b|;
    var second: Byte := if b[i] == 0xE0 then 0xA0 else if b[i] == 0xF0 then 0x90 else 0x80;
    var first := if |b| == i + 1 then second else 0x80;
    [first] + (if n == 1 then [] else if n == 2 then [0x80] else [0x80, 0x80])
  }

  lemma BegunCanEnd(b: Bytes, i: nat)
    requires Begun(b, i)
    ensures ValidFrom(b + Missing(b, i), i)
  {
    var f, n := b + Missing(b, i), Promised(b[i]);
    assert f[i] == b[i];
    forall k | i + 1 <= k < i + n
      ensures Tail(f[k])
    {
      assert k < |b| ==> Tail(b[k]);
    }
    assert SecondOk(f[i], f[i + 1]);
    assert RuneSize(f, i) == n && |f| == i + n;
  }

  /** Text up to a boundary and text from it on is text. */
  lemma {:induction false} ValidAcross(f: Bytes, m: nat, i: nat)
    requires i <= m <= |f| && ValidFrom(f[..m], i) && ValidFrom(f, m)
    ensures ValidFrom(f, i)
    decreases m - i
  {
    if i < m {
      var n := RuneSize(f[..m], i);
      assert forall k :: i + 1 <= k < i + n ==> Tail(f[..m][k]) && f[k] == f[..m][k];
      assert RuneSize(f, i) == n;
      ValidAcross(f, m, i + n);
    }
  }

  /** A cut that a character was begun at can be finished to a text. */
  lemma CutCanEnd(head: Bytes, k: nat)
    requires 0 !in head && CutInside(head, k) && (k > 0 ==> Begun(head, |head| - k))
    ensures BeginsText(head)
  {
    if k == 0 {
      assert head[..|head|] == head;
    } else {
      var i := |head| - k;
      var f := head + Missing(head, i);
      BegunCanEnd(head, i);
      assert f[..i] == head[..i];
      ValidAcross(f, i, 0);
      assert 0 !in f && head <= f;
    }
  }

  /** What is left of a character cut at w has begun it. */
  lemma CutHasBegun(f: Bytes, w: nat, m: nat)
    requires m < w <= |f| && RuneSize(f, m) > w - m
    ensures Begun(f[..w], m)
  {
    var n := RuneSize(f, m);
    assert forall k :: m + 1 <= k < m + n ==> Tail(f[k]);
  }

  /** A window that cuts valid text cuts it inside one character or none. */
  lemma CutOfText(f: Bytes, w: nat) returns (k: nat)
    requires Valid(f) && w <= |f|
    ensures k <= 3 && CutInside(f[..w], k) && (k > 0 ==> Begun(f[..w], w - k))
  {
    var m := CutText(f, w, 0);
    k := w - m;
    assert f[..w][..w - k] == f[..m];
    if m < w {
      SizeInPrefix(f, w, m);
      CutHasBegun(f, w, m);
      assert f[..w][m] == f[m] && RuneStart(f[m]);
    }
  }

  /** Which heads a text can begin with, for heads of any length. */
  lemma BeginsTextIff(head: Bytes)
    ensures BeginsText(head) <==>
            0 !in head && exists k: nat :: k <= 3 && CutInside(head, k) && (k > 0 ==> Begun(head, |head| - k))
  {
    if f: Bytes :| Valid(f) && 0 !in f && head <= f {
      assert f[..|head|] == head;
      var k := CutOfText(f, |head|);
    }
    if 0 !in head {
      if k: nat :| k <= 3 && CutInside(head, k) && (k > 0 ==> Begun(head, |head| - k)) {
        CutCanEnd(head, k);
      }
    }
  }

  /** A head is cut in one way at most. */
  lemma OneCut(head: Bytes, j: nat, k: nat)
    requires CutInside(head, j) && CutInside(head, k)
    ensures j == k
  {
    if j < k {
      LessIsNoCut(head, j, k);
    } else if k < j {
      LessIsNoCut(head, k, j);
    }
  }

  lemma LessIsNoCut(head: Bytes, j: nat, k: nat)
    requires j < k && CutInside(head, k)
    ensures !CutInside(head, j)
  {
    if j == 0 {
      if Valid(head) {
        StartsAreBoundaries(head, 0, |head| - k);
        assert false;
      }
      assert head[..|head| - 0] == head;
    } else {
      assert Tail(head[|head| - j]);
    }
  }

  /** A full window is judged as it should be, text exactly when a text begins with
      it, if and only if it has a NUL or the bytes it is cut at, if any, could go on
      to a character, for which Begun looks at the first byte and the second. */
  lemma WindowJudgedRightIff(head: Bytes)
    requires |head| >= SniffBytes
    ensures (!Binary(head) <==> BeginsText(head))
            <==> (0 in head || forall k: nat :: 0 < k <= 3 && CutInside(head, k) ==> Begun(head, |head| - k))
  {
    BinaryExactly(head);
    BeginsTextIff(head);
    if j: nat :| j <= 3 && CutInside(head, j) {
      forall k: nat | CutInside(head, k)
        ensures k == j
      {
        OneCut(head, j, k);
      }
    }
  }

  lemma {:induction false} AsciiIsValid(b: Bytes, i: nat)
    requires forall k :: 0 <= k < |b| ==> b[k] < 0x80
    ensures ValidFrom(b, i)
    decreases |b| - i
  {
    if i < |b| {
      AsciiIsValid(b, i + 1);
    }
  }
}
