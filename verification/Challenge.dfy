/** Parsing a registry's Bearer challenge (section 3 of RFC 6750): the quote-aware
    comma splitter and the parameter reader. Letters are ASCII. */
module Challenge {
  import opened Common

  // ----- splitting

  /** Whether a scan of `s` that starts outside quotes ends inside. */
  function InQuote(s: string): bool
    decreases |s|
  {
    if s == [] then false else InQuote(s[..|s| - 1]) != (s[|s| - 1] == '"')
  }

  /** The parts of the remaining input, given the part under construction. */
  function Split(s: string, inQuote: bool, cur: string): seq<string>
    decreases |s|
  {
    if s == [] then (if cur == [] then [] else [cur])
    else if s[0] == '"' then Split(s[1..], !inQuote, cur + [s[0]])
    else if s[0] == ',' && !inQuote then [cur] + Split(s[1..], inQuote, [])
    else Split(s[1..], inQuote, cur + [s[0]])
  }

  method SplitParams(s: string) returns (parts: seq<string>)
    ensures parts == Split(s, false, [])
  {
    parts := [];
    var b: string := [];
    var inQuote := false;
    for i := 0 to |s|
      invariant Split(s, false, []) == parts + Split(s[i..], inQuote, b)
    {
      var r := s[i];
      assert s[i..][0] == r && s[i..][1..] == s[i+1..];
      if r == '"' {
        inQuote := !inQuote;
        b := b + [r];
      } else if r == ',' && !inQuote {
        parts := parts + [b];
        b := [];
      } else {
        b := b + [r];
      }
    }
    if |b| > 0 { parts := parts + [b]; }
  }

  function Join(parts: seq<string>): string {
    if parts == [] then []
    else if |parts| == 1 then parts[0]
    else parts[0] + "," + Join(parts[1..])
  }

  /** The input ends with a comma that is not inside quotes. */
  predicate TrailingComma(s: string) {
    s != [] && s[|s| - 1] == ',' && !InQuote(s[..|s| - 1])
  }

  lemma {:induction false} InQuoteAppend(s: string, c: char)
    ensures InQuote(s + [c]) == (InQuote(s) != (c == '"'))
  {
    assert (s + [c])[..|s|] == s;
  }

  /** A comma outside quotes restarts the scan. */
  lemma {:induction false} InQuoteAfterComma(p: string, s: string)
    requires !InQuote(p)
    ensures InQuote(p + s) == InQuote(s)
    decreases |s|
  {
    if s == [] {
      assert p + s == p;
    } else {
      InQuoteAfterComma(p, s[..|s| - 1]);
      assert (p + s)[..|p + s| - 1] == p + s[..|s| - 1];
    }
  }

  lemma {:induction false} TrailingAfterComma(cur: string, t: string)
    requires !InQuote(cur)
    ensures TrailingComma(cur + "," + t) <==> t == [] || TrailingComma(t)
  {
    InQuoteAppend(cur, ',');
    var s := cur + "," + t;
    assert cur + "," == cur + [','];
    if t == [] {
      assert s[..|s| - 1] == cur;
    } else {
      assert s[..|s| - 1] == (cur + ",") + t[..|t| - 1];
      InQuoteAfterComma(cur + ",", t[..|t| - 1]);
    }
  }

  /** Every comma of the text is inside quotes. */
  ghost predicate CommaFree(p: string) {
    forall i :: 0 <= i < |p| && p[i] == ',' ==> InQuote(p[..i])
  }

  /** Joining the parts gives the input back, except that one trailing comma
      outside quotes is dropped. */
  lemma {:induction false} JoinSplit(s: string, cur: string)
    requires CommaFree(cur)
    ensures cur + s == Join(Split(s, InQuote(cur), cur)) + Dropped(cur + s)
    decreases |s|
  {
    hide InQuote, CommaFree, TrailingComma, Join, Dropped;
    if s == [] {
      assert cur + s == cur;
      NotTrailing(cur);
      JoinOne(cur);
    } else if s[0] == ',' && !InQuote(cur) {
      var t := s[1..];
      StartsOutside();
      CommaFreeEmpty();
      JoinSplit(t, []);
      assert [] + t == t;
      assert cur + s == cur + "," + t;
      if Split(t, false, []) == [] { EmptySplit(t); }
      JoinAfterComma(cur, t, Split(t, false, []));
    } else {
      var next := cur + [s[0]];
      InQuoteAppend(cur, s[0]);
      CommaFreeAppend(cur, s[0]);
      JoinSplit(s[1..], next);
      assert cur + s == next + s[1..];
    }
  }

  lemma {:induction false} JoinAfterComma(cur: string, t: string, rest: seq<string>)
    requires !InQuote(cur) && t == Join(rest) + Dropped(t) && (rest == [] <==> t == [])
    ensures cur + "," + t == Join([cur] + rest) + Dropped(cur + "," + t)
  {
    hide InQuote, TrailingComma;
    TrailingAfterComma(cur, t);
    assert ([cur] + rest)[1..] == rest;
    if rest != [] {
      assert Join([cur] + rest) == cur + "," + Join(rest);
      assert (cur + "," + Join(rest)) + Dropped(t) == cur + "," + (Join(rest) + Dropped(t));
    } else {
      assert cur + "," + t == cur + ",";
    }
  }

  function Dropped(s: string): string { if TrailingComma(s) then "," else "" }

  lemma StartsOutside()
    ensures !InQuote([])
  {
  }

  lemma NotTrailing(cur: string)
    requires CommaFree(cur)
    ensures !TrailingComma(cur) && Dropped(cur) == ""
  {
  }

  lemma JoinOne(cur: string)
    ensures Join(if cur == [] then [] else [cur]) == cur
  {
  }

  lemma {:induction false} CommaFreeAppend(cur: string, c: char)
    requires CommaFree(cur) && (c == ',' ==> InQuote(cur))
    ensures CommaFree(cur + [c])
  {
    var next := cur + [c];
    forall i | 0 <= i < |next| && next[i] == ',' ensures InQuote(next[..i]) {
      assert next[..i] == cur[..i];
      if i == |cur| { assert cur[..i] == cur; }
    }
  }

  /** Only the empty input gives no part at all. */
  lemma {:induction false} EmptySplit(s: string)
    requires Split(s, false, []) == []
    ensures s == []
  {
    if s != [] {
      assert [] + [s[0]] == [s[0]];
      SplitNonempty(s[1..], s[0] == '"', [s[0]]);
    }
  }

  lemma {:induction false} SplitNonempty(s: string, q: bool, cur: string)
    requires cur != []
    ensures Split(s, q, cur) != []
    decreases |s|
  {
    if s != [] && !(s[0] == ',' && !q) {
      SplitNonempty(s[1..], q != (s[0] == '"'), cur + [s[0]]);
    }
  }

  /** The splitter on whole inputs: exact reconstruction. */
  lemma {:induction false} SplitIsInvertible(s: string)
    ensures s == Join(Split(s, false, [])) + Dropped(s)
  {
    JoinSplit(s, []);
    assert [] + s == s;
  }

  /** No part contains a comma outside quotes, and only the last part can leave a
      quote open. */
  lemma {:induction false} PartsAreCommaFree(s: string, cur: string)
    requires CommaFree(cur)
    ensures WellSplit(Split(s, InQuote(cur), cur))
    decreases |s|
  {
    hide InQuote, CommaFree;
    if s == [] {
    } else if s[0] == ',' && !InQuote(cur) {
      StartsOutside();
      CommaFreeEmpty();
      PartsAreCommaFree(s[1..], []);
      var rest := Split(s[1..], false, []);
      forall k | 0 < k < |[cur] + rest| ensures ([cur] + rest)[k] == rest[k - 1] {}
    } else {
      InQuoteAppend(cur, s[0]);
      CommaFreeAppend(cur, s[0]);
      PartsAreCommaFree(s[1..], cur + [s[0]]);
    }
  }

  ghost predicate WellSplit(parts: seq<string>) {
    && (forall k :: 0 <= k < |parts| ==> CommaFree(parts[k]))
    && (forall k :: 0 <= k < |parts| - 1 ==> !InQuote(parts[k]))
  }

  lemma CommaFreeEmpty()
    ensures CommaFree([])
  {
  }

  // ----- the challenge

  datatype Params = Params(realm: string, service: string, scope: string)

  function LowerChar(c: char): char {
    if 'A' <= c <= 'Z' then (c as int + 32) as char else c
  }

  function ToLower(s: string): string {
    seq(|s|, i requires 0 <= i < |s| => LowerChar(s[i]))
  }

  predicate Space(c: char) { c in {' ', '\t', '\n', '\r', '\U{000B}', '\U{000C}', '\U{0085}', '\U{00A0}'} }

  predicate Quote(c: char) { c == '"' }

  function TrimLeft(s: string, drop: char -> bool): string {
    if s != [] && drop(s[0]) then TrimLeft(s[1..], drop) else s
  }

  function TrimRight(s: string, drop: char -> bool): string
    decreases |s|
  {
    if s != [] && drop(s[|s| - 1]) then TrimRight(s[..|s| - 1], drop) else s
  }

  function Trim(s: string, drop: char -> bool): string { TrimRight(TrimLeft(s, drop), drop) }

  function TrimSpace(s: string): string { Trim(s, Space) }
  function TrimQuotes(s: string): string { Trim(s, Quote) }

  /** `strings.Cut(s, "=")`. */
  function Cut(s: string): Option<(string, string)> {
    if s == [] then None
    else if s[0] == '=' then Some(([], s[1..]))
    else match Cut(s[1..]) case None => None case Some((k, v)) => Some(([s[0]] + k, v))
  }

  /** What one part contributes; parts without '=' and unknown keys are ignored. */
  function Apply(ch: Params, part: string): Params {
    match Cut(part)
    case None => ch
    case Some((k, raw)) =>
      var v := TrimQuotes(TrimSpace(raw));
      var key := ToLower(TrimSpace(k));
      if key == "realm" then ch.(realm := v)
      else if key == "service" then ch.(service := v)
      else if key == "scope" then ch.(scope := v)
      else ch
  }

  function ApplyAll(ch: Params, parts: seq<string>): Params
    decreases |parts|
  {
    if parts == [] then ch else Apply(ApplyAll(ch, parts[..|parts| - 1]), parts[|parts| - 1])
  }

  predicate IsBearer(h: string) { |h| >= 7 && ToLower(h)[..7] == "bearer " }

  function Parsed(h: string): Option<Params> {
    if !IsBearer(h) then None
    else
      var ch := ApplyAll(Params("", "", ""), Split(h[7..], false, []));
      if ch.realm == "" then None else Some(ch)
  }

  method ParseChallenge(h: string) returns (r: Option<Params>)
    ensures r == Parsed(h)
  {
    if !IsBearer(h) { return None; }
    var ch := Params("", "", "");
    var parts := SplitParams(h[7..]);
    for i := 0 to |parts|
      invariant ch == ApplyAll(Params("", "", ""), parts[..i])
    {
      assert parts[..i+1][..i] == parts[..i];
      var cut := Cut(parts[i]);
      if cut.Some? {
        var (k, raw) := cut.value;
        var v := TrimQuotes(TrimSpace(raw));
        var key := ToLower(TrimSpace(k));
        if key == "realm" {
          ch := ch.(realm := v);
        } else if key == "service" {
          ch := ch.(service := v);
        } else if key == "scope" {
          ch := ch.(scope := v);
        }
      }
    }
    assert parts[..|parts|] == parts;
    r := if ch.realm == "" then None else Some(ch);
  }
}
