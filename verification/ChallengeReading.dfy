/** Reading one rendered parameter of a challenge: scanning, cutting and trimming. */
module ChallengeReading {
  import opened Common
  import opened Challenge

  function Param(key: string, v: string): string { key + "=\"" + v + "\"" }

  predicate Blank(gap: string) { forall c :: c in gap ==> Space(c) }

  // ----- the condition on the values

  /** The quotes in the value come in pairs. */
  predicate Balanced(v: string) { !InQuote(v) }

  /** Read after an opening quote, every comma of the value is inside quotes. */
  ghost predicate Enclosed(v: string) {
    forall i :: 0 <= i < |v| && v[i] == ',' ==> !InQuote(v[..i])
  }

  /** No quote at either end. */
  predicate BareEnds(v: string) { v == "" || (!Quote(v[0]) && !Quote(v[|v| - 1])) }

  ghost predicate Intact(v: string) { Enclosed(v) && BareEnds(v) }

  // ----- scanning

  lemma {:induction false} InQuoteCons(c: char, t: string)
    ensures InQuote([c] + t) == ((c == '"') != InQuote(t))
    decreases |t|
  {
    if t == [] {
      assert ([c] + t)[..0] == [];
    } else {
      InQuoteCons(c, t[..|t| - 1]);
      assert ([c] + t)[..|t|] == [c] + t[..|t| - 1];
    }
  }

  /** Every comma of `t` is inside quotes when the scan starts in state `q`. */
  ghost predicate Quoted(t: string, q: bool) {
    forall i :: 0 <= i < |t| && t[i] == ',' ==> InQuote(t[..i]) != q
  }

  lemma QuotedTail(t: string, q: bool)
    requires t != [] && Quoted(t, q)
    ensures Quoted(t[1..], q != (t[0] == '"'))
    ensures t[0] == ',' ==> q
  {
    forall i | 0 <= i < |t| - 1 && t[1..][i] == ',' ensures InQuote(t[1..][..i]) != (q != (t[0] == '"')) {
      assert t[..i + 1] == [t[0]] + t[1..][..i];
      InQuoteCons(t[0], t[1..][..i]);
    }
    assert t[..0] == [];
  }

  /** The scan runs through text without a loose comma in one go. */
  lemma {:induction false} ScanQuoted(t: string, rest: string, q: bool, cur: string)
    requires Quoted(t, q)
    ensures Split(t + rest, q, cur) == Split(rest, q != InQuote(t), cur + t)
    decreases |t|
  {
    hide InQuote, Quoted;
    if t == [] {
      assert t + rest == rest && cur + t == cur;
      StartsOutside();
    } else {
      QuotedTail(t, q);
      InQuoteCons(t[0], t[1..]);
      assert t == [t[0]] + t[1..];
      assert (t + rest)[1..] == t[1..] + rest;
      ScanQuoted(t[1..], rest, q != (t[0] == '"'), cur + [t[0]]);
      assert cur + t == (cur + [t[0]]) + t[1..];
    }
  }

  /** Text that ends with a closing quote is split on its own, whatever follows the
      comma after it. */
  lemma {:induction false} SplitAtComma(a: string, b: string, q: bool, cur: string)
    requires a != [] && a[|a| - 1] == '"' && q == InQuote(a)
    ensures Split(a + "," + b, q, cur) == Split(a, q, cur) + Split(b, false, [])
    decreases |a|
  {
    hide InQuote;
    var s := a + "," + b;
    assert s[0] == a[0] && s[1..] == a[1..] + "," + b;
    assert a == [a[0]] + a[1..];
    InQuoteCons(a[0], a[1..]);
    if |a| == 1 {
      assert a[1..] == [] && s[1..] == "," + b && ("," + b)[1..] == b;
      StartsOutside();
    } else if a[0] == ',' && !q {
      SplitAtComma(a[1..], b, q, []);
      assert [cur] + (Split(a[1..], q, []) + Split(b, false, [])) == [cur] + Split(a[1..], q, []) + Split(b, false, []);
    } else {
      SplitAtComma(a[1..], b, q != (a[0] == '"'), cur + [a[0]]);
    }
  }

  lemma {:induction false} PartsBounded(s: string, q: bool, cur: string, part: string)
    requires part in Split(s, q, cur)
    ensures |part| <= |cur| + |s|
    decreases |s|
  {
    if s != [] {
      if s[0] == ',' && !q {
        if part != cur { PartsBounded(s[1..], q, [], part); }
      } else {
        PartsBounded(s[1..], q != (s[0] == '"'), cur + [s[0]], part);
      }
    }
  }

  // ----- trimming

  lemma {:induction false} TrimLeftShrinks(s: string, drop: char -> bool)
    ensures |TrimLeft(s, drop)| <= |s|
    ensures TrimLeft(s, drop) != [] ==> TrimLeft(s, drop)[|TrimLeft(s, drop)| - 1] == s[|s| - 1]
    ensures s != [] && drop(s[0]) ==> |TrimLeft(s, drop)| < |s|
  {
    if s != [] && drop(s[0]) { TrimLeftShrinks(s[1..], drop); }
  }

  lemma {:induction false} TrimRightShrinks(s: string, drop: char -> bool)
    ensures |TrimRight(s, drop)| <= |s|
    ensures s != [] && drop(s[|s| - 1]) ==> |TrimRight(s, drop)| < |s|
    ensures s != [] && !drop(s[0]) ==> TrimRight(s, drop) != [] && TrimRight(s, drop)[0] == s[0]
    decreases |s|
  {
    if s != [] && drop(s[|s| - 1]) { TrimRightShrinks(s[..|s| - 1], drop); }
  }

  lemma ValueShrinks(raw: string)
    ensures |TrimQuotes(TrimSpace(raw))| <= |raw|
    ensures raw != [] && Quote(raw[0]) ==> |TrimQuotes(TrimSpace(raw))| < |raw|
  {
    TrimLeftShrinks(raw, Space);
    TrimRightShrinks(TrimLeft(raw, Space), Space);
    TrimLeftShrinks(TrimSpace(raw), Quote);
    TrimRightShrinks(TrimLeft(TrimSpace(raw), Quote), Quote);
  }

  lemma TrimNothing(drop: char -> bool)
    ensures TrimLeft("", drop) == "" && TrimRight("", drop) == ""
  {
  }

  lemma {:induction false} TrimOne(c: char, s: string, drop: char -> bool)
    ensures drop(c) ==> TrimLeft([c] + s, drop) == TrimLeft(s, drop) && TrimRight(s + [c], drop) == TrimRight(s, drop)
    ensures !drop(c) ==> TrimLeft([c] + s, drop) == [c] + s && TrimRight(s + [c], drop) == s + [c]
  {
    assert ([c] + s)[1..] == s && (s + [c])[..|s|] == s;
  }

  lemma {:induction false} TrimBare(s: string, drop: char -> bool)
    requires s != "" && !drop(s[0]) && !drop(s[|s| - 1])
    ensures TrimLeft(s, drop) == s && TrimRight(s, drop) == s
  {
  }

  lemma QuoteIsNoSpace()
    ensures !Space('"') && Quote('"')
  {
  }

  /** Spaces do not reach into a quoted value. */
  lemma SpacedQuoted(v: string)
    ensures TrimSpace("\"" + v + "\"") == "\"" + v + "\""
  {
    hide Space, TrimLeft, TrimRight;
    QuoteIsNoSpace();
    var raw := "\"" + v + "\"";
    assert raw[0] == '"' && raw[|raw| - 1] == '"';
    TrimBare(raw, Space);
  }

  /** A quoted value is read back exactly if it has no quote at either end. */
  lemma {:induction false} TrimQuoted(v: string)
    ensures TrimSpace("\"" + v + "\"") == "\"" + v + "\""
    ensures BareEnds(v) ==> TrimQuotes("\"" + v + "\"") == v
    ensures !BareEnds(v) ==> |TrimQuotes("\"" + v + "\"")| < |v|
  {
    hide TrimLeft, TrimRight, Space, Quote;
    SpacedQuoted(v);
    QuoteIsNoSpace();
    var raw, x := "\"" + v + "\"", v + "\"";
    assert raw == ['"'] + x && x == v + ['"'];
    TrimOne('"', x, Quote);
    TrimOne('"', v, Quote);
    TrimNothing(Quote);
    if v == "" {
      TrimOne('"', "", Quote);
      assert x == ['"'] + "";
    } else if !Quote(v[0]) {
      assert x == [v[0]] + (v[1..] + ['"']);
      TrimOne(v[0], v[1..] + ['"'], Quote);
      TrimRightShrinks(v, Quote);
      if !Quote(v[|v| - 1]) { TrimBare(v, Quote); }
    } else {
      TrimLeftShrinks(x, Quote);
      TrimRightShrinks(TrimLeft(x, Quote), Quote);
    }
  }

  lemma {:induction false} TrimLeftBlank(gap: string, s: string)
    requires Blank(gap) && (s == [] || !Space(s[0]))
    ensures TrimLeft(gap + s, Space) == s
  {
    if gap == [] {
      assert gap + s == s;
    } else {
      assert (gap + s)[1..] == gap[1..] + s;
      assert gap[0] in gap && forall c :: c in gap[1..] ==> c in gap;
      TrimLeftBlank(gap[1..], s);
    }
  }

  // ----- reading one parameter

  predicate Key(key: string) { key in {"realm", "service", "scope"} }

  function Get(ch: Params, key: string): string {
    if key == "realm" then ch.realm else if key == "service" then ch.service else ch.scope
  }

  function Set(ch: Params, key: string, v: string): Params {
    if key == "realm" then ch.(realm := v) else if key == "service" then ch.(service := v) else ch.(scope := v)
  }

  lemma {:induction false} CutAtFirst(k: string, v: string)
    requires '=' !in k
    ensures Cut(k + "=" + v) == Some((k, v))
  {
    var s := k + "=" + v;
    if k == [] {
      assert s[1..] == v;
    } else {
      assert s[1..] == k[1..] + "=" + v;
      assert k[0] in k && forall c :: c in k[1..] ==> c in k;
      CutAtFirst(k[1..], v);
      assert k == [k[0]] + k[1..];
    }
  }

  lemma {:induction false} CutLength(part: string)
    ensures Cut(part).Some? ==> |Cut(part).value.1| < |part|
  {
    if part != [] && part[0] != '=' { CutLength(part[1..]); }
  }

  lemma KeyIsBare(gap: string, key: string)
    requires Blank(gap) && Key(key)
    ensures '=' !in gap + key && TrimSpace(gap + key) == key && ToLower(key) == key
    ensures '"' !in gap + key && ',' !in gap + key
  {
    TrimLeftBlank(gap, key);
  }

  /** What a part that starts with a key contributes. */
  lemma ApplyKey(ch: Params, gap: string, key: string, raw: string)
    requires Blank(gap) && Key(key)
    ensures Apply(ch, gap + key + "=" + raw) == Set(ch, key, TrimQuotes(TrimSpace(raw)))
  {
    hide TrimSpace, TrimQuotes, ToLower, Blank;
    KeyIsBare(gap, key);
    CutAtFirst(gap + key, raw);
  }

  lemma {:induction false} ApplyConcat(ch: Params, a: seq<string>, b: seq<string>)
    ensures ApplyAll(ch, a + b) == ApplyAll(ApplyAll(ch, a), b)
    decreases |b|
  {
    hide Apply;
    if b == [] {
      assert a + b == a;
    } else {
      ApplyConcat(ch, a, b[..|b| - 1]);
      assert (a + b)[..|a + b| - 1] == a + b[..|b| - 1];
    }
  }

  lemma {:induction false} ApplyOne(ch: Params, part: string)
    ensures ApplyAll(ch, [part]) == Apply(ch, part)
  {
    hide Apply;
    assert [part][..0] == [] && ApplyAll(ch, []) == ch;
  }

  /** Short parts cannot give a key a long value. */
  lemma {:induction false} ShortParts(ch: Params, parts: seq<string>, key: string, n: nat)
    requires forall part :: part in parts ==> |part| <= n
    requires Key(key) && |Get(ch, key)| < n
    ensures |Get(ApplyAll(ch, parts), key)| < n
    decreases |parts|
  {
    hide TrimQuotes, TrimSpace, ToLower;
    if parts != [] {
      var m := |parts| - 1;
      assert parts[m] in parts && forall part :: part in parts[..m] ==> part in parts;
      ShortParts(ch, parts[..m], key, n);
      CutLength(parts[m]);
      if Cut(parts[m]).Some? { ValueShrinks(Cut(parts[m]).value.1); }
    }
  }

  /** The first loose comma of a value. */
  lemma {:induction false} FirstLoose(v: string) returns (i: nat)
    requires !Enclosed(v)
    ensures i < |v| && v[i] == ',' && InQuote(v[..i]) && Enclosed(v[..i])
    decreases |v|
  {
    hide InQuote;
    var n := |v| - 1;
    if Enclosed(v[..n]) {
      i := n;
      assert forall j :: 0 <= j < n ==> v[..n][j] == v[j] && v[..n][..j] == v[..j];
    } else {
      i := FirstLoose(v[..n]);
      assert v[..n][..i] == v[..i];
    }
  }

  /** The opening of a parameter scans into the part under construction. */
  lemma {:induction false} ScanOpening(gap: string, key: string, s: string)
    requires Blank(gap) && Key(key)
    ensures Split((gap + key + "=\"") + s, false, []) == Split(s, true, gap + key + "=\"")
  {
    var open := gap + key + "=\"";
    KeyIsBare(gap, key);
    NoQuotes(gap + key + "=");
    assert open == (gap + key + "=") + ['"'];
    InQuoteAppend(gap + key + "=", '"');
    assert ',' !in open;
    ScanQuoted(open, s, false, []);
    assert [] + open == open;
  }

  lemma {:induction false} NoQuotes(t: string)
    requires '"' !in t
    ensures !InQuote(t)
    decreases |t|
  {
    if t != [] { NoQuotes(t[..|t| - 1]); }
  }

  lemma EnclosedIsQuoted(v: string)
    ensures Enclosed(v) <==> Quoted(v, true)
  {
  }

  /** Reading one rendered parameter, on its own, gives the value back exactly if it
      is intact, and otherwise a shorter one. */
  lemma {:induction false} ReadParam(ch: Params, gap: string, key: string, v: string)
    requires Blank(gap) && Key(key)
    ensures var r := ApplyAll(ch, Split(gap + Param(key, v), false, []));
            && (Intact(v) ==> r == Set(ch, key, v))
            && (!Intact(v) ==> |Get(r, key)| < |v|)
  {
    hide Split, InQuote, Enclosed, Blank, Apply, ApplyAll, TrimQuotes, TrimSpace, BareEnds, Quoted;
    var open := gap + key + "=\"";
    assert gap + Param(key, v) == open + (v + "\"");
    ScanOpening(gap, key, v + "\"");
    if Enclosed(v) {
      EnclosedIsQuoted(v);
      ScanQuoted(v, "\"", true, open);
      LastQuote(!InQuote(v), open + v);
      var raw := "\"" + v + "\"";
      assert open + v + "\"" == gap + key + "=" + raw;
      ApplyOne(ch, gap + key + "=" + raw);
      ApplyKey(ch, gap, key, raw);
      TrimQuoted(v);
    } else {
      var i := FirstLoose(v);
      ReadCut(ch, gap, key, v, i);
    }
  }

  lemma {:induction false} LastQuote(q: bool, cur: string)
    ensures Split("\"", q, cur) == [cur + "\""]
  {
    assert "\""[1..] == [];
  }

  /** A value with a loose comma is cut there. */
  lemma {:induction false} ReadCut(ch: Params, gap: string, key: string, v: string, i: nat)
    requires Blank(gap) && Key(key)
    requires i < |v| && v[i] == ',' && InQuote(v[..i]) && Enclosed(v[..i])
    ensures |Get(ApplyAll(ch, Split(gap + Param(key, v), false, [])), key)| < |v|
  {
    hide InQuote, Enclosed, Blank, Apply, ApplyAll, TrimQuotes, TrimSpace, Quoted;
    var open := gap + key + "=\"";
    var rest := v[i + 1..] + "\"";
    assert gap + Param(key, v) == open + (v[..i] + ("," + rest));
    ScanOpening(gap, key, v[..i] + ("," + rest));
    EnclosedIsQuoted(v[..i]);
    ScanQuoted(v[..i], "," + rest, true, open);
    assert ("," + rest)[1..] == rest;
    var first, later := open + v[..i], Split(rest, false, []);
    assert Split(gap + Param(key, v), false, []) == [first] + later;
    ApplyConcat(ch, [first], later);
    ApplyOne(ch, first);
    var raw := "\"" + v[..i];
    assert first == gap + key + "=" + raw;
    ApplyKey(ch, gap, key, raw);
    ValueShrinks(raw);
    forall part | part in later ensures |part| <= |v| { PartsBounded(rest, false, [], part); }
    ShortParts(Apply(ch, first), later, key, |v|);
  }

  lemma {:induction false} EndsClosed(gap: string, key: string, v: string)
    requires Blank(gap) && Key(key) && Balanced(v)
    ensures var a := gap + Param(key, v); a != [] && a[|a| - 1] == '"' && !InQuote(a)
  {
    hide InQuote, Blank;
    var head := gap + key + "=";
    KeyIsBare(gap, key);
    NoQuotes(head);
    InQuoteAppend(head, '"');
    InQuoteJoin(head + ['"'], v);
    InQuoteAppend(head + ['"'] + v, '"');
    assert gap + Param(key, v) == (head + ['"'] + v) + ['"'];
  }

  lemma {:induction false} InQuoteJoin(a: string, b: string)
    ensures InQuote(a + b) == (InQuote(a) != InQuote(b))
    decreases |b|
  {
    if b == [] {
      assert a + b == a;
    } else {
      InQuoteJoin(a, b[..|b| - 1]);
      assert (a + b)[..|a + b| - 1] == a + b[..|b| - 1];
    }
  }

  lemma NothingIsBlank()
    ensures Blank([])
  {
  }

  lemma OneQuote()
    ensures InQuote("\"")
  {
    InQuoteAppend("", '"');
    NoQuotes("");
    assert "" + ['"'] == "\"";
  }
}
