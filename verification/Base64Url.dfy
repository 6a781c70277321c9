/** The relay's base64url helpers over the platform's `btoa` and `atob`
    (section 5 of RFC 4648; `atob` is the forgiving decoder of browsers). */
module Base64Url {
  import opened Common

  type Byte = b: int | 0 <= b < 256
  type Sextet = v: int | 0 <= v < 64

  // ----- the platform functions

  function Char64(v: Sextet): char {
    if v < 26 then ('A' as int + v) as char
    else if v < 52 then ('a' as int + v - 26) as char
    else if v < 62 then ('0' as int + v - 52) as char
    else if v == 62 then '+' else '/'
  }

  function Value64(c: char): Option<Sextet> {
    if 'A' <= c <= 'Z' then Some(c as int - 'A' as int)
    else if 'a' <= c <= 'z' then Some(c as int - 'a' as int + 26)
    else if '0' <= c <= '9' then Some(c as int - '0' as int + 52)
    else if c == '+' then Some(62)
    else if c == '/' then Some(63)
    else None
  }

  predicate Latin1(s: string) { forall i :: 0 <= i < |s| ==> s[i] as int < 256 }

  // Regrouping three bytes as four sextets, and back.
  function First(x: Byte): Sextet { x / 4 }
  function Second(x: Byte, y: Byte): Sextet { x % 4 * 16 + y / 16 }
  function Third(y: Byte, z: Byte): Sextet { y % 16 * 4 + z / 64 }
  function Fourth(z: Byte): Sextet { z % 64 }
  function Byte0(a: Sextet, b: Sextet): Byte { a * 4 + b / 16 }
  function Byte1(b: Sextet, c: Sextet): Byte { b % 16 * 16 + c / 4 }
  function Byte2(c: Sextet, d: Sextet): Byte { c % 4 * 64 + d }

  lemma Regroup(x: Byte, y: Byte, z: Byte)
    ensures Byte0(First(x), Second(x, y)) == x
    ensures Byte1(Second(x, y), Third(y, z)) == y
    ensures Byte2(Third(y, z), Fourth(z)) == z
  {
  }

  function Btoa(s: string): string
    requires Latin1(s)
    decreases |s|
  {
    if s == [] then []
    else
      var x := s[0] as int;
      var c0 := Char64(First(x));
      if |s| == 1 then [c0, Char64(Second(x, 0)), '=', '=']
      else
        var y := s[1] as int;
        var c1 := Char64(Second(x, y));
        if |s| == 2 then [c0, c1, Char64(Third(y, 0)), '=']
        else
          var z := s[2] as int;
          [c0, c1, Char64(Third(y, z)), Char64(Fourth(z))] + Btoa(s[3..])
  }

  predicate Space(c: char) { c in {' ', '\t', '\n', '\r', '\U{000C}'} }

  function WithoutSpaces(s: string): string {
    if s == [] then [] else (if Space(s[0]) then [] else [s[0]]) + WithoutSpaces(s[1..])
  }

  /** Drops one or two final '=' of a string whose length is a multiple of four. */
  function Unpadded(s: string): string {
    if |s| % 4 != 0 || s == [] || s[|s| - 1] != '=' then s
    else if s[|s| - 2] == '=' then s[..|s| - 2]
    else s[..|s| - 1]
  }

  /** Decodes groups of four; a remainder of two or three characters gives one or
      two bytes, a remainder of one is an error. Spare bits are dropped. */
  function Groups(s: string): Option<string>
    decreases |s|
  {
    if s == [] then Some([])
    else if |s| == 1 then None
    else
      var a, b := Value64(s[0]), Value64(s[1]);
      if a.None? || b.None? then None
      else
        var x := Byte0(a.value, b.value) as char;
        if |s| == 2 then Some([x])
        else
          var c := Value64(s[2]);
          if c.None? then None
          else
            var y := Byte1(b.value, c.value) as char;
            if |s| == 3 then Some([x, y])
            else
              var d := Value64(s[3]);
              var rest := Groups(s[4..]);
              if d.None? || rest.None? then None
              else Some([x, y, Byte2(c.value, d.value) as char] + rest.value)
  }

  function Atob(s: string): Option<string> {
    Groups(Unpadded(WithoutSpaces(s)))
  }

  // ----- the helpers

  /** `s.replace(/x/g, y)` for single characters. */
  function Replaced(s: string, x: char, y: char): string {
    seq(|s|, i requires 0 <= i < |s| => if s[i] == x then y else s[i])
  }

  /** `s.replace(/=+$/, "")`. */
  function Stripped(s: string): string
    decreases |s|
  {
    if s != [] && s[|s| - 1] == '=' then Stripped(s[..|s| - 1]) else s
  }

  function Binary(bytes: seq<Byte>): string {
    seq(|bytes|, i requires 0 <= i < |bytes| => bytes[i] as char)
  }

  lemma BinaryIsLatin1(bytes: seq<Byte>)
    ensures Latin1(Binary(bytes))
  {
  }

  lemma BinaryLength(bytes: seq<Byte>)
    ensures |Binary(bytes)| == |bytes|
  {
  }

  function UrlSafe(s: string): string { Replaced(Replaced(s, '+', '-'), '/', '_') }

  function Standard(s: string): string { Replaced(Replaced(s, '-', '+'), '_', '/') }

  function Encoded(bytes: seq<Byte>): string {
    BinaryIsLatin1(bytes);
    Stripped(UrlSafe(Btoa(Binary(bytes))))
  }

  function Repadded(norm: string): string {
    norm + (if |norm| % 4 == 0 then "" else seq(4 - |norm| % 4, _ => '='))
  }

  function Decoded(s: string): Option<string> {
    Atob(Repadded(Standard(s)))
  }

  method B64UrlEncode(bytes: seq<Byte>) returns (s: string)
    ensures s == Encoded(bytes)
  {
    var bin := "";
    for i := 0 to |bytes|
      invariant bin == Binary(bytes[..i])
    {
      assert bytes[..i+1] == bytes[..i] + [bytes[i]];
      bin := bin + [bytes[i] as char];
    }
    assert bytes[..|bytes|] == bytes;
    BinaryIsLatin1(bytes);
    s := Stripped(UrlSafe(Btoa(bin)));
  }

  /** Fills the result buffer byte by byte; fails where `atob` throws. */
  method B64UrlDecode(s: string) returns (ok: bool, out: array<Byte>)
    ensures ok <==> Decoded(s).Some?
    ensures ok ==> Binary(out[..]) == Decoded(s).value
  {
    out := new Byte[0];
    var norm := Standard(s);
    var decoded := Atob(Repadded(norm));
    if decoded.None? { return false, out; }
    var bin := decoded.value;
    out := new Byte[|bin|];
    GroupsLatin1(Unpadded(WithoutSpaces(Repadded(norm))));
    for i := 0 to |bin|
      invariant forall k :: 0 <= k < i ==> out[k] as char == bin[k]
    {
      out[i] := bin[i] as int;
    }
    ok := true;
  }

  lemma {:induction false} GroupsLatin1(s: string)
    ensures Groups(s).Some? ==> Latin1(Groups(s).value)
    decreases |s|
  {
    if |s| >= 4 { GroupsLatin1(s[4..]); }
  }

  // ----- round trip

  /** How many '=' the encoding of a string of this length ends with. */
  function Padding(n: nat): nat { if n % 3 == 0 then 0 else 3 - n % 3 }

  lemma PaddingNotThree(n: nat)
    ensures Padding(n) <= 2
  {
  }

  lemma Char64Plain(v: Sextet)
    ensures Value64(Char64(v)) == Some(v) && Char64(v) != '=' && !Space(Char64(v))
    ensures Char64(v) !in {'-', '_'}
  {
  }

  /** Groups of four: alphabet characters, then `p` times the padding. */
  ghost predicate Shaped(e: string, p: nat) {
    && |e| % 4 == 0 && p <= |e|
    && (forall i :: 0 <= i < |e| - p ==> Value64(e[i]).Some?)
    && (forall i :: |e| - p <= i < |e| ==> e[i] == '=')
  }

  lemma ShapedCons(group: string, e: string, p: nat)
    requires |group| == 4 && Shaped(group, 0) && Shaped(e, p)
    ensures Shaped(group + e, p)
  {
    hide Value64;
    var all := group + e;
    forall i | 0 <= i < |all| - p ensures Value64(all[i]).Some? {
      assert all[i] == if i < 4 then group[i] else e[i - 4];
    }
    forall i | |all| - p <= i < |all| ensures all[i] == '=' {
      assert all[i] == e[i - 4];
    }
  }

  /** The shape of `btoa`'s output. */
  lemma {:induction false} BtoaShape(s: string)
    requires Latin1(s)
    ensures Shaped(Btoa(s), Padding(|s|))
    decreases |s|
  {
    hide First, Second, Third, Fourth, Char64, Value64;
    if s != [] {
      var x := s[0] as int;
      var y := if |s| >= 2 then s[1] as int else 0;
      var z := if |s| >= 3 then s[2] as int else 0;
      Char64Plain(First(x));
      Char64Plain(Second(x, y));
      Char64Plain(Third(y, z));
      Char64Plain(Fourth(z));
      if |s| >= 3 {
        BtoaShape(s[3..]);
        assert Padding(|s|) == Padding(|s[3..]|);
        ShapedCons([Char64(First(x)), Char64(Second(x, y)), Char64(Third(y, z)), Char64(Fourth(z))], Btoa(s[3..]), Padding(|s|));
      }
    }
  }

  /** Decoding the unpadded groups gives the bytes back. */
  lemma {:induction false} GroupsInverts(s: string)
    requires Latin1(s)
    ensures |Btoa(s)| >= Padding(|s|) && Groups(Btoa(s)[..|Btoa(s)| - Padding(|s|)]) == Some(s)
    decreases |s|
  {
    hide First, Second, Third, Fourth, Byte0, Byte1, Byte2, Char64, Value64;
    if s != [] {
      var x := s[0] as int;
      var y := if |s| >= 2 then s[1] as int else 0;
      var z := if |s| >= 3 then s[2] as int else 0;
      Char64Plain(First(x));
      Char64Plain(Second(x, y));
      Char64Plain(Third(y, z));
      Char64Plain(Fourth(z));
      Regroup(x, y, z);
      var e, p := Btoa(s), Padding(|s|);
      if |s| >= 3 {
        GroupsInverts(s[3..]);
        var r := Btoa(s[3..]);
        assert Padding(|s[3..]|) == p;
        var u := e[..|e| - p];
        assert e[4..] == r;
        assert u[4..] == r[..|r| - p];
        assert Groups(u).value == [s[0], s[1], s[2]] + s[3..];
        assert s == [s[0], s[1], s[2]] + s[3..];
      } else if |s| == 2 {
        assert e[..|e| - p] == e[..3];
        assert s == [s[0], s[1]];
      } else {
        assert e[..|e| - p] == e[..2];
        assert s == [s[0]];
      }
    }
  }

  lemma {:induction false} NoSpaces(s: string)
    requires forall c :: c in s ==> !Space(c)
    ensures WithoutSpaces(s) == s
  {
    if s != [] {
      assert forall c :: c in s[1..] ==> c in s;
      NoSpaces(s[1..]);
      assert s[0] in s;
    }
  }

  lemma {:induction false} StripsExactly(s: string, k: nat)
    requires k <= |s| && forall i :: k <= i < |s| ==> s[i] == '='
    requires k > 0 ==> s[k - 1] != '='
    ensures Stripped(s) == s[..k]
    decreases |s|
  {
    if k < |s| {
      StripsExactly(s[..|s| - 1], k);
      assert s[..|s| - 1][..k] == s[..k];
    } else {
      assert s[..k] == s;
    }
  }

  /** What stripping removes, and only that, is what re-padding puts back. */
  lemma RepaddingRestores(bytes: seq<Byte>)
    ensures Latin1(Binary(bytes)) && Repadded(Standard(Encoded(bytes))) == Btoa(Binary(bytes))
    ensures |Encoded(bytes)| == |Btoa(Binary(bytes))| - Padding(|bytes|)
    ensures |Encoded(bytes)| % 4 != 1
    ensures forall c :: c in Encoded(bytes) ==> c !in {'=', '+', '/'}
  {
    hide Btoa, Binary, Stripped, UrlSafe, Standard, Repadded, Value64, Padding;
    BinaryIsLatin1(bytes);
    var e := Btoa(Binary(bytes));
    assert |Binary(bytes)| == |bytes| by { BinaryLength(bytes); }
    BtoaShape(Binary(bytes));
    var k := |e| - Padding(|bytes|);
    PaddingNotThree(|bytes|);
    StripsTo(e, k);
    StandardUndoes(e, k);
    RepadText(e, k);
  }

  lemma RepadText(e: string, k: nat)
    requires |e| % 4 == 0 && |e| - 2 <= k <= |e|
    requires forall i :: k <= i < |e| ==> e[i] == '='
    ensures Repadded(e[..k]) == e && k % 4 != 1
  {
  }

  lemma StripsTo(e: string, k: nat)
    requires k <= |e| && forall i :: k <= i < |e| ==> e[i] == '='
    requires forall i :: 0 <= i < k ==> Value64(e[i]).Some?
    ensures Stripped(UrlSafe(e)) == UrlSafe(e)[..k] && |UrlSafe(e)| == |e|
  {
    if k > 0 { assert Value64(e[k - 1]).Some?; }
    StripsExactly(UrlSafe(e), k);
  }

  lemma StandardUndoes(e: string, k: nat)
    requires k <= |e| && forall i :: 0 <= i < k ==> Value64(e[i]).Some?
    ensures Standard(UrlSafe(e)[..k]) == e[..k]
    ensures forall c :: c in UrlSafe(e)[..k] ==> c !in {'=', '+', '/'}
  {
    var u := UrlSafe(e)[..k];
    forall i | 0 <= i < k ensures u[i] !in {'=', '+', '/'} && Standard(u)[i] == e[i] {
      assert Value64(e[i]).Some?;
    }
  }

  /** Round trip: decoding the encoding of any byte sequence gives it back. */
  lemma {:induction false} RoundTrip(bytes: seq<Byte>)
    ensures Decoded(Encoded(bytes)) == Some(Binary(bytes))
  {
    RepaddingRestores(bytes);
    AtobInverts(Binary(bytes));
  }

  lemma {:induction false} AtobInverts(s: string)
    requires Latin1(s)
    ensures Atob(Btoa(s)) == Some(s)
  {
    BtoaShape(s);
    GroupsInverts(s);
    var e, k := Btoa(s), |Btoa(s)| - Padding(|s|);
    PaddedText(e, k);
  }

  /** A string of alphabet characters with up to two '=' loses just these in `atob`. */
  lemma {:induction false} PaddedText(e: string, k: nat)
    requires |e| % 4 == 0 && |e| - 2 <= k <= |e|
    requires forall i :: 0 <= i < k ==> Value64(e[i]).Some?
    requires forall i :: k <= i < |e| ==> e[i] == '='
    ensures Unpadded(WithoutSpaces(e)) == e[..k]
  {
    hide Unpadded, WithoutSpaces;
    forall c | c in e ensures !Space(c) {
      var i :| 0 <= i < |e| && e[i] == c;
      assert i < k ==> Value64(e[i]).Some?;
    }
    NoSpaces(e);
    UnpaddedText(e, k);
  }

  lemma UnpaddedText(e: string, k: nat)
    requires |e| % 4 == 0 && |e| - 2 <= k <= |e|
    requires forall i :: 0 <= i < k ==> Value64(e[i]).Some?
    requires forall i :: k <= i < |e| ==> e[i] == '='
    ensures Unpadded(e) == e[..k]
  {
    hide Value64;
    assert Value64('=').None? by { PaddingIsNoValue(); }
    assert forall i :: 0 <= i < k ==> e[i] != '=';
    assert e[..|e|] == e;
  }

  lemma PaddingIsNoValue()
    ensures Value64('=').None?
  {
  }

  /** Padded input is accepted too. */
  lemma PaddedRoundTrip(bytes: seq<Byte>)
    ensures Latin1(Binary(bytes)) && Decoded(UrlSafe(Btoa(Binary(bytes)))) == Some(Binary(bytes))
  {
    BinaryIsLatin1(bytes);
    var e := Btoa(Binary(bytes));
    BtoaShape(Binary(bytes));
    forall i | 0 <= i < |e| ensures Standard(UrlSafe(e))[i] == e[i] {
      assert Value64(e[i]).Some? || e[i] == '=';
    }
    assert Standard(UrlSafe(e)) == e;
    assert Repadded(e) == e;
    AtobInverts(Binary(bytes));
  }

  /** Distinct byte sequences have distinct encodings. */
  lemma EncodingInjective(a: seq<Byte>, b: seq<Byte>)
    requires Encoded(a) == Encoded(b)
    ensures a == b
  {
    RoundTrip(a);
    RoundTrip(b);
    assert |Binary(a)| == |Binary(b)|;
    forall i | 0 <= i < |a| ensures a[i] == b[i] {
      assert Binary(a)[i] == Binary(b)[i];
    }
  }

  /** An input whose length is one more than a multiple of four never decodes. */
  lemma BadLengthFails(s: string)
    requires |s| % 4 == 1 && forall c :: c in s ==> !Space(c)
    ensures Decoded(s).None?
  {
    var r := Repadded(Standard(s));
    forall c | c in r ensures !Space(c) {
      var i :| 0 <= i < |r| && r[i] == c;
      if i < |s| { assert s[i] in s; }
    }
    NoSpaces(r);
    var u := Unpadded(r);
    assert u == r[..|r| - 2] && u[|u| - 1] == '=';
    PaddedGroupsFail(u);
  }

  lemma {:induction false} PaddedGroupsFail(u: string)
    requires u != [] && u[|u| - 1] == '='
    ensures Groups(u).None?
    decreases |u|
  {
    if |u| > 4 {
      assert u[4..][|u[4..]| - 1] == '=';
      PaddedGroupsFail(u[4..]);
    }
  }
}
