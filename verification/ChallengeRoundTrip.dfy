/** Exactly which challenges the parser reads back: rendering a Bearer challenge
    (section 3 of RFC 6750) and parsing it. */
module ChallengeRoundTrip {
  import opened Common
  import opened Challenge
  import opened ChallengeReading

  /** A challenge as a server writes it: any casing of the scheme and any white
      space after the commas. */
  function Render(scheme: string, gap: string, p: Params): string {
    scheme + " " + (Param("realm", p.realm) + "," + ((gap + Param("service", p.service)) + "," + (gap + Param("scope", p.scope))))
  }

  // ----- counting letters

  /** How often the letter occurs, in either case. */
  function Count(s: string, c: char): nat {
    if s == [] then 0 else (if LowerChar(s[0]) == c then 1 else 0) + Count(s[1..], c)
  }

  function Total(parts: seq<string>, c: char): nat {
    if parts == [] then 0 else Count(parts[0], c) + Total(parts[1..], c)
  }

  lemma {:induction false} CountConcat(a: string, b: string, c: char)
    ensures Count(a + b, c) == Count(a, c) + Count(b, c)
  {
    if a == [] {
      assert a + b == b;
    } else {
      assert (a + b)[1..] == a[1..] + b;
      CountConcat(a[1..], b, c);
    }
  }

  lemma {:induction false} CountHas(s: string, i: nat, c: char)
    requires i < |s| && LowerChar(s[i]) == c
    ensures Count(s, c) >= 1
  {
    if i > 0 { CountHas(s[1..], i - 1, c); }
  }

  lemma {:induction false} CountNone(s: string, c: char)
    requires forall x :: x in s ==> LowerChar(x) != c
    ensures Count(s, c) == 0
  {
    if s != [] {
      assert s[0] in s && forall x :: x in s[1..] ==> x in s;
      CountNone(s[1..], c);
    }
  }

  lemma {:induction false} TotalSnoc(parts: seq<string>, part: string, c: char)
    ensures Total(parts + [part], c) == Total(parts, c) + Count(part, c)
  {
    if parts == [] {
      assert [] + [part] == [part] && [part][1..] == [];
    } else {
      assert (parts + [part])[1..] == parts[1..] + [part];
      TotalSnoc(parts[1..], part, c);
    }
  }

  /** Splitting loses commas only. */
  lemma {:induction false} SplitTotal(s: string, q: bool, cur: string, c: char)
    requires c != ','
    ensures Total(Split(s, q, cur), c) == Count(cur, c) + Count(s, c)
    decreases |s|
  {
    if s == [] {
      if cur != [] { assert [cur][1..] == []; }
    } else {
      assert s == [s[0]] + s[1..];
      if s[0] == ',' && !q {
        SplitTotal(s[1..], q, [], c);
        assert ([cur] + Split(s[1..], q, []))[1..] == Split(s[1..], q, []);
      } else {
        SplitTotal(s[1..], q != (s[0] == '"'), cur + [s[0]], c);
        CountConcat(cur, [s[0]], c);
        assert [s[0]][1..] == [];
      }
    }
  }

  lemma {:induction false} TrimLeftCount(s: string, drop: char -> bool, c: char)
    ensures Count(TrimLeft(s, drop), c) <= Count(s, c)
  {
    if s != [] && drop(s[0]) { TrimLeftCount(s[1..], drop, c); }
  }

  lemma {:induction false} TrimRightCount(s: string, drop: char -> bool, c: char)
    ensures Count(TrimRight(s, drop), c) <= Count(s, c)
    decreases |s|
  {
    if s != [] && drop(s[|s| - 1]) {
      TrimRightCount(s[..|s| - 1], drop, c);
      assert s == s[..|s| - 1] + [s[|s| - 1]];
      CountConcat(s[..|s| - 1], [s[|s| - 1]], c);
    }
  }

  lemma {:induction false} TrimCount(s: string, drop: char -> bool, c: char)
    ensures Count(Trim(s, drop), c) <= Count(s, c)
  {
    TrimLeftCount(s, drop, c);
    TrimRightCount(TrimLeft(s, drop), drop, c);
  }

  lemma {:induction false} CutCount(part: string, c: char)
    ensures Cut(part).Some? ==> Count(Cut(part).value.0, c) + Count(Cut(part).value.1, c) <= Count(part, c)
  {
    if part != [] && part[0] != '=' {
      CutCount(part[1..], c);
      if Cut(part[1..]).Some? {
        var k := Cut(part[1..]).value.0;
        assert ([part[0]] + k)[1..] == k;
      }
    }
  }

  /** A letter of the key's own name. */
  predicate OwnLetter(key: string, c: char) {
    (key == "realm" && c == 'm') || (key == "service" && c == 'v')
  }

  lemma {:induction false} NameHasLetter(k: string, key: string, c: char)
    requires ToLower(k) == key && OwnLetter(key, c)
    ensures Count(k, c) >= 1
  {
    var i := if key == "realm" then 4 else 3;
    assert |k| == |key| && ToLower(k)[i] == c;
    CountHas(k, i, c);
  }

  function Weight(p: Params, c: char): nat {
    Count(p.realm, c) + Count(p.service, c) + Count(p.scope, c)
  }

  /** The weight of the other two values. */
  function Others(p: Params, key: string, c: char): nat
    requires Key(key)
  {
    if key == "realm" then Count(p.service, c) + Count(p.scope, c)
    else if key == "service" then Count(p.realm, c) + Count(p.scope, c)
    else Count(p.realm, c) + Count(p.service, c)
  }

  lemma {:induction false} WeightIs(p: Params, key: string, c: char)
    requires Key(key)
    ensures Weight(p, c) == Count(Get(p, key), c) + Others(p, key, c)
  {
  }

  /** A part changes at most one value, and holds that value and the letters of its key. */
  lemma {:induction false} ApplyWeighs(ch: Params, part: string, c: char) returns (key: string, v: string)
    ensures Key(key) && (Apply(ch, part) == ch || Apply(ch, part) == Set(ch, key, v))
    ensures Count(v, c) <= Count(part, c)
    ensures OwnLetter(key, c) && Apply(ch, part) != ch ==> Count(v, c) + 1 <= Count(part, c)
  {
    hide Count, TrimQuotes, TrimSpace, ToLower;
    key, v := "scope", "";
    assert Count(v, c) == 0 by { CountNone("", c); }
    if Cut(part).Some? {
      var (k, raw) := Cut(part).value;
      CutCount(part, c);
      ValueCount(raw, c);
      TrimCount(k, Space, c);
      assert TrimSpace(k) == Trim(k, Space) by { SpaceTrim(k); }
      if Key(ToLower(TrimSpace(k))) {
        key, v := ToLower(TrimSpace(k)), TrimQuotes(TrimSpace(raw));
        if OwnLetter(key, c) { NameHasLetter(TrimSpace(k), key, c); }
      }
    }
  }

  lemma SpaceTrim(s: string)
    ensures TrimSpace(s) == Trim(s, Space) && TrimQuotes(s) == Trim(s, Quote)
  {
  }

  lemma {:induction false} ValueCount(raw: string, c: char)
    ensures Count(TrimQuotes(TrimSpace(raw)), c) <= Count(raw, c)
  {
    hide Count, Trim;
    SpaceTrim(raw);
    SpaceTrim(TrimSpace(raw));
    TrimCount(raw, Space, c);
    TrimCount(TrimSpace(raw), Quote, c);
  }

  /** Parts give the other values no more letters than they hold themselves. */
  lemma {:induction false} OthersGrow(ch: Params, parts: seq<string>, key: string, c: char)
    requires Key(key)
    ensures Others(ApplyAll(ch, parts), key, c) <= Others(ch, key, c) + Total(parts, c)
    decreases |parts|
  {
    hide Apply, Count;
    if parts != [] {
      var n := |parts| - 1;
      OthersGrow(ch, parts[..n], key, c);
      var k, v := ApplyWeighs(ApplyAll(ch, parts[..n]), parts[n], c);
      TotalSnoc(parts[..n], parts[n], c);
      assert parts == parts[..n] + [parts[n]];
    }
  }

  /** A key that is set along the way is paid for by a letter of its name. */
  lemma {:induction false} SettingCosts(ch: Params, parts: seq<string>, key: string, c: char)
    requires Key(key) && OwnLetter(key, c)
    ensures var r := ApplyAll(ch, parts);
            Get(r, key) == Get(ch, key) || Weight(r, c) + 1 <= Others(ch, key, c) + Total(parts, c)
    decreases |parts|
  {
    hide Apply, Count;
    if parts != [] {
      var n := |parts| - 1;
      var before := ApplyAll(ch, parts[..n]);
      SettingCosts(ch, parts[..n], key, c);
      OthersGrow(ch, parts[..n], key, c);
      var k, v := ApplyWeighs(before, parts[n], c);
      TotalSnoc(parts[..n], parts[n], c);
      assert parts == parts[..n] + [parts[n]];
      WeightIs(before, k, c);
      WeightIs(Apply(before, parts[n]), k, c);
      WeightIs(before, key, c);
      WeightIs(Apply(before, parts[n]), key, c);
    }
  }

  // ----- the first parameter decides

  lemma {:induction false} HeadExtends(s: string, q: bool, cur: string) returns (y: string)
    requires cur != []
    ensures Split(s, q, cur) != [] && Split(s, q, cur)[0] == cur + y
    decreases |s|
  {
    if s == [] || (s[0] == ',' && !q) {
      y := [];
      assert cur + y == cur;
    } else {
      var y' := HeadExtends(s[1..], q != (s[0] == '"'), cur + [s[0]]);
      y := [s[0]] + y';
      assert cur + y == (cur + [s[0]]) + y';
    }
  }

  lemma {:induction false} TrimRightKeeps(a: string, c: char, b: string, drop: char -> bool)
    requires !drop(c)
    ensures |TrimRight(a + [c] + b, drop)| > |a| && TrimRight(a + [c] + b, drop) <= a + [c] + b
    decreases |b|
  {
    var s := a + [c] + b;
    if b == [] {
      assert s[|s| - 1] == c;
    } else {
      assert s[..|s| - 1] == a + [c] + b[..|b| - 1];
      TrimRightKeeps(a, c, b[..|b| - 1], drop);
    }
  }

  lemma {:induction false} TrimLeftBareHead(s: string, drop: char -> bool)
    ensures TrimLeft(s, drop) != [] ==> !drop(TrimLeft(s, drop)[0])
  {
    if s != [] && drop(s[0]) { TrimLeftBareHead(s[1..], drop); }
  }

  lemma EqualsIsPlain()
    ensures !Space('=') && !Quote('=') && !Space('"') && Quote('"')
  {
  }

  /** A value that swallows what follows is not read back. */
  lemma {:induction false} SwallowedIsOther(v: string, x: string, y: string)
    requires v != ""
    ensures TrimQuotes(TrimSpace("\"" + v + "\"" + x + "=" + y)) != v
  {
    hide TrimLeft, TrimRight, Space, Quote;
    EqualsIsPlain();
    var head := "\"" + v + "\"" + x;
    var raw := head + ['='] + y;
    assert raw == "\"" + v + "\"" + x + "=" + y;
    assert raw == ['"'] + raw[1..];
    TrimOne('"', raw[1..], Space);
    TrimRightKeeps(head, '=', y, Space);
    var s := TrimSpace(raw);
    assert s == TrimRight(raw, Space) && head + ['='] <= s by { assert (head + ['=']) == raw[..|head| + 1]; }
    var tail := s[|head| + 1..];
    var inner := v + "\"" + x;
    assert head == ['"'] + inner;
    assert s == (head + ['=']) + tail by { assert s[..|head| + 1] == head + ['=']; }
    assert s == ['"'] + (inner + ['='] + tail);
    TrimOne('"', inner + ['='] + tail, Quote);
    var t := inner + ['='] + tail;
    assert t[0] == v[0] && t == [v[0]] + t[1..];
    if Quote(v[0]) {
      TrimLeftBareHead(t, Quote);
      HeadSurvives(TrimLeft(t, Quote), Quote);
    } else {
      TrimOne(v[0], t[1..], Quote);
      TrimRightKeeps(inner, '=', tail, Quote);
    }
  }

  lemma {:induction false} HeadSurvives(s: string, drop: char -> bool)
    requires s != [] ==> !drop(s[0])
    ensures TrimRight(s, drop) != [] ==> s != [] && TrimRight(s, drop)[0] == s[0]
  {
    if s != [] { TrimRightShrinks(s, drop); } else { TrimNothing(drop); }
  }

  /** A text that starts with a parameter and goes on with another. */
  function Text(gap: string, key: string, v: string, next: string): string {
    gap + Param(key, v) + "," + next
  }

  lemma {:induction false} TextOpens(gap: string, key: string, v: string, next: string)
    requires Blank(gap) && Key(key)
    ensures Split(Text(gap, key, v, next), false, []) == Split(v + ("\"" + ("," + next)), true, gap + key + "=\"")
  {
    hide Split, Blank;
    var open, tail := gap + key + "=\"", "\"" + ("," + next);
    assert Text(gap, key, v, next) == open + (v + tail);
    ScanOpening(gap, key, v + tail);
  }

  lemma {:induction false} FirstIsClosed(gap: string, key: string, v: string, next: string)
    requires Blank(gap) && Key(key) && Enclosed(v) && Balanced(v)
    ensures var parts := Split(Text(gap, key, v, next), false, []);
            parts != [] && parts[0] == gap + key + "=" + ("\"" + v + "\"")
  {
    hide Split, InQuote, Enclosed, Blank, Quoted;
    var open := gap + key + "=\"";
    TextOpens(gap, key, v, next);
    EnclosedIsQuoted(v);
    ScanQuoted(v, "\"" + ("," + next), true, open);
    ClosedByComma(open + v, next);
    assert open + v + "\"" == gap + key + "=" + ("\"" + v + "\"");
  }

  lemma {:induction false} FirstSwallows(gap: string, key: string, v: string, gap': string, key': string, more: string)
    returns (y: string)
    requires Blank(gap) && Key(key) && Blank(gap') && Key(key') && Enclosed(v) && !Balanced(v)
    ensures var parts := Split(Text(gap, key, v, gap' + key' + "=\"" + more), false, []);
            parts != [] && parts[0] == gap + key + "=" + ("\"" + v + "\"" + ("," + gap' + key') + "=" + ("\"" + y))
  {
    hide Split, InQuote, Enclosed, Blank, Quoted;
    var open, next := gap + key + "=\"", gap' + key' + "=\"" + more;
    TextOpens(gap, key, v, next);
    EnclosedIsQuoted(v);
    ScanQuoted(v, "\"" + ("," + next), true, open);
    y := SwallowsNext(open + v, gap', key', more);
    assert open + v + "\"" + "," + gap' + key' + "=" + "\"" + y
        == gap + key + "=" + ("\"" + v + "\"" + ("," + gap' + key') + "=" + ("\"" + y));
  }

  lemma {:induction false} FirstIsCut(gap: string, key: string, v: string, next: string) returns (i: nat)
    requires Blank(gap) && Key(key) && !Enclosed(v)
    ensures i < |v|
    ensures var parts := Split(Text(gap, key, v, next), false, []);
            parts != [] && parts[0] == gap + key + "=" + ("\"" + v[..i])
  {
    hide Split, InQuote, Enclosed, Blank, Quoted;
    var open, tail := gap + key + "=\"", "\"" + ("," + next);
    TextOpens(gap, key, v, next);
    i := FirstLoose(v);
    assert v + tail == v[..i] + ("," + (v[i + 1..] + tail));
    EnclosedIsQuoted(v[..i]);
    ScanQuoted(v[..i], "," + (v[i + 1..] + tail), true, open);
    CutByComma(open + v[..i], v[i + 1..] + tail);
    assert open + v[..i] == gap + key + "=" + ("\"" + v[..i]);
  }

  /** What the first part of such a text says: the value, exactly if it is balanced and
      intact. */
  lemma {:induction false} FirstPart(gap: string, key: string, v: string, gap': string, key': string, more: string)
    returns (raw: string)
    requires Blank(gap) && Key(key) && Blank(gap') && Key(key')
    ensures var parts := Split(Text(gap, key, v, gap' + key' + "=\"" + more), false, []);
            parts != [] && parts[0] == gap + key + "=" + raw
    ensures TrimQuotes(TrimSpace(raw)) == v <==> Balanced(v) && Intact(v)
  {
    hide Split, InQuote, Enclosed, Blank, TrimQuotes, TrimSpace, BareEnds, Text;
    if !Enclosed(v) {
      var i := FirstIsCut(gap, key, v, gap' + key' + "=\"" + more);
      raw := "\"" + v[..i];
      ValueShrinks(raw);
    } else if Balanced(v) {
      FirstIsClosed(gap, key, v, gap' + key' + "=\"" + more);
      raw := "\"" + v + "\"";
      TrimQuoted(v);
    } else {
      var y := FirstSwallows(gap, key, v, gap', key', more);
      raw := "\"" + v + "\"" + ("," + gap' + key') + "=" + ("\"" + y);
      NoQuotes("");
      SwallowedIsOther(v, "," + gap' + key', "\"" + y);
    }
  }

  lemma {:induction false} CutByComma(cur: string, s: string)
    ensures Split("," + s, false, cur) != [] && Split("," + s, false, cur)[0] == cur
  {
  }

  lemma {:induction false} ClosedByComma(cur: string, next: string)
    ensures Split("\"" + ("," + next), true, cur) != [] && Split("\"" + ("," + next), true, cur)[0] == cur + "\""
  {
    assert ("\"" + ("," + next))[1..] == "," + next;
    CutByComma(cur + "\"", next);
  }

  lemma {:induction false} SwallowsNext(cur: string, gap: string, key: string, more: string) returns (y: string)
    requires Blank(gap) && Key(key)
    ensures var parts := Split("\"" + ("," + (gap + key + "=\"" + more)), false, cur);
            parts != [] && parts[0] == cur + "\"" + "," + gap + key + "=" + "\"" + y
  {
    hide InQuote, Blank, Split, Quoted;
    var word := "," + (gap + key + "=");
    KeyIsBare(gap, key);
    assert '"' !in word;
    WordIsQuoted(word);
    NoQuotes(word);
    assert "," + (gap + key + "=\"" + more) == word + ("\"" + more);
    ScanQuote(word + ("\"" + more), false, cur);
    ScanQuoted(word, "\"" + more, true, cur + "\"");
    ScanQuote(more, true, cur + "\"" + word);
    y := HeadExtends(more, false, cur + "\"" + word + "\"");
    assert word == "," + gap + key + "=";
  }

  lemma {:induction false} ScanQuote(s: string, q: bool, cur: string)
    ensures Split("\"" + s, q, cur) == Split(s, !q, cur + "\"")
  {
    assert ("\"" + s)[1..] == s;
  }

  lemma WordIsQuoted(word: string)
    requires '"' !in word
    ensures Quoted(word, true)
  {
    forall i | 0 <= i < |word| ensures !InQuote(word[..i]) { NoQuotes(word[..i]); }
  }

  /** If the letters of all values fit the text only once, the key of the first
      parameter is set by that parameter and by no later one. */
  lemma {:induction false} FirstDecides(ch: Params, gap: string, key: string, raw: string, parts: seq<string>, c: char)
    requires Blank(gap) && Key(key) && OwnLetter(key, c)
    requires parts != [] && parts[0] == gap + key + "=" + raw
    requires Total(parts, c) + Others(ch, key, c) <= Weight(ApplyAll(ch, parts), c) + 1
    ensures Get(ApplyAll(ch, parts), key) == TrimQuotes(TrimSpace(raw))
  {
    hide Blank, Apply, Count, TrimQuotes, TrimSpace, Weight;
    var first, rest := parts[0], parts[1..];
    assert parts == [first] + rest;
    ApplyConcat(ch, [first], rest);
    ApplyOne(ch, first);
    ApplyKey(ch, gap, key, raw);
    SettingCosts(Apply(ch, first), rest, key, c);
    FirstHasLetter(gap, key, raw, c);
  }

  lemma {:induction false} FirstHasLetter(gap: string, key: string, raw: string, c: char)
    requires Key(key) && OwnLetter(key, c)
    ensures Count(gap + key + "=" + raw, c) >= 1
  {
    var i := |gap| + if key == "realm" then 4 else 3;
    CountHas(gap + key + "=" + raw, i, c);
  }

  lemma {:induction false} CountParam(gap: string, key: string, v: string, c: char)
    requires Blank(gap) && Key(key) && c in {'m', 'v'}
    ensures Count(gap + Param(key, v), c) == (if OwnLetter(key, c) then 1 else 0) + Count(v, c)
  {
    hide Count, Blank;
    CountConcat(gap, Param(key, v), c);
    CountConcat(key + "=\"" + v, "\"", c);
    CountConcat(key + "=\"", v, c);
    CountConcat(key, "=\"", c);
    assert Param(key, v) == key + "=\"" + v + "\"";
    BlankHasNoLetter(gap, c);
    CountNone("=\"", c);
    CountNone("\"", c);
    CountKey(key, c);
  }

  lemma {:induction false} BlankHasNoLetter(gap: string, c: char)
    requires Blank(gap) && c in {'m', 'v'}
    ensures Count(gap, c) == 0
  {
    CountNone(gap, c);
  }

  lemma {:induction false} CountKey(key: string, c: char)
    requires Key(key) && c in {'m', 'v'}
    ensures Count(key, c) == if OwnLetter(key, c) then 1 else 0
  {
    hide Count;
    if key == "realm" {
      CountFive("realm", c);
    } else if key == "scope" {
      CountFive("scope", c);
    } else {
      CountService(c);
    }
  }

  lemma {:induction false} CountService(c: char)
    requires c in {'m', 'v'}
    ensures Count("service", c) == if c == 'v' then 1 else 0
  {
    hide Count;
    assert "service" == "se" + "rvice";
    CountConcat("se", "rvice", c);
    CountNone("se", c);
    CountFive("rvice", c);
  }

  lemma {:induction false} CountFive(s: string, c: char)
    requires |s| == 5
    ensures Count(s, c) == (if LowerChar(s[0]) == c then 1 else 0) + (if LowerChar(s[1]) == c then 1 else 0)
                         + (if LowerChar(s[2]) == c then 1 else 0) + (if LowerChar(s[3]) == c then 1 else 0)
                         + (if LowerChar(s[4]) == c then 1 else 0)
  {
    assert s[1..][1..] == s[2..] && s[2..][1..] == s[3..] && s[3..][1..] == s[4..] && s[4..][1..] == [];
    assert Count(s[4..], c) == (if LowerChar(s[4]) == c then 1 else 0) + Count([], c);
    assert Count(s[3..], c) == (if LowerChar(s[3]) == c then 1 else 0) + Count(s[4..], c);
    assert Count(s[2..], c) == (if LowerChar(s[2]) == c then 1 else 0) + Count(s[3..], c);
    assert Count(s[1..], c) == (if LowerChar(s[1]) == c then 1 else 0) + Count(s[2..], c);
  }

  // ----- reading a whole challenge

  /** The text of the last two parameters, and of all three. */
  function LastTwo(gap: string, p: Params): string {
    (gap + Param("service", p.service)) + "," + (gap + Param("scope", p.scope))
  }

  function AllThree(gap: string, p: Params): string {
    Param("realm", p.realm) + "," + LastTwo(gap, p)
  }

  /** If the text is read as `p`, its first parameter is sound. */
  lemma {:induction false} RealmIsSound(gap: string, p: Params)
    requires Blank(gap) && ApplyAll(Params("", "", ""), Split(AllThree(gap, p), false, [])) == p
    ensures Balanced(p.realm) && Intact(p.realm)
  {
    hide Split, ApplyAll, Blank, Balanced, Intact, Count, TrimQuotes, TrimSpace;
    var c0, t := Params("", "", ""), AllThree(gap, p);
    NothingIsBlank();
    var more := p.service + "\"" + "," + (gap + Param("scope", p.scope));
    assert t == Text([], "realm", p.realm, gap + "service" + "=\"" + more);
    var raw := FirstPart([], "realm", p.realm, gap, "service", more);
    SplitTotal(t, false, [], 'm');
    CountThree(gap, p, 'm');
    CountNone("", 'm');
    FirstDecides(c0, [], "realm", raw, Split(t, false, []), 'm');
  }

  /** And its second one, once the first has been read. */
  lemma {:induction false} ServiceIsSound(gap: string, p: Params)
    requires Blank(gap) && ApplyAll(Params(p.realm, "", ""), Split(LastTwo(gap, p), false, [])) == p
    ensures Balanced(p.service) && Intact(p.service)
  {
    hide Split, ApplyAll, Blank, Balanced, Intact, Count, TrimQuotes, TrimSpace;
    var c1, t := Params(p.realm, "", ""), LastTwo(gap, p);
    var more := p.scope + "\"";
    assert t == Text(gap, "service", p.service, gap + "scope" + "=\"" + more);
    var raw := FirstPart(gap, "service", p.service, gap, "scope", more);
    SplitTotal(t, false, [], 'v');
    CountTwo(gap, p, 'v');
    CountNone("", 'v');
    FirstDecides(c1, gap, "service", raw, Split(t, false, []), 'v');
  }

  lemma {:induction false} CountTwo(gap: string, p: Params, c: char)
    requires Blank(gap) && c in {'m', 'v'}
    ensures Count(LastTwo(gap, p), c) == (if c == 'v' then 1 else 0) + Count(p.service, c) + Count(p.scope, c)
  {
    hide Count, Blank;
    var b, d := gap + Param("service", p.service), gap + Param("scope", p.scope);
    CountConcat(b + ",", d, c);
    CountConcat(b, ",", c);
    CountNone(",", c);
    CountParam(gap, "service", p.service, c);
    CountParam(gap, "scope", p.scope, c);
  }

  lemma {:induction false} CountThree(gap: string, p: Params, c: char)
    requires Blank(gap) && c in {'m', 'v'}
    ensures Count(AllThree(gap, p), c) == 1 + Count(p.realm, c) + Count(p.service, c) + Count(p.scope, c)
  {
    hide Count, Blank;
    var a := Param("realm", p.realm);
    CountConcat(a + ",", LastTwo(gap, p), c);
    CountConcat(a, ",", c);
    CountNone(",", c);
    NothingIsBlank();
    assert [] + a == a;
    CountParam([], "realm", p.realm, c);
    CountTwo(gap, p, c);
  }

  /** A balanced first parameter is read before the rest. */
  lemma {:induction false} ReadFirst(ch: Params, gap: string, key: string, v: string, rest: string)
    requires Blank(gap) && Key(key) && Balanced(v)
    ensures ApplyAll(ch, Split(gap + Param(key, v) + "," + rest, false, []))
         == ApplyAll(ApplyAll(ch, Split(gap + Param(key, v), false, [])), Split(rest, false, []))
  {
    hide Split, InQuote, Apply, ApplyAll, Blank;
    EndsClosed(gap, key, v);
    SplitAtComma(gap + Param(key, v), rest, false, []);
    ApplyConcat(ch, Split(gap + Param(key, v), false, []), Split(rest, false, []));
  }

  ghost predicate Sound(p: Params) {
    && Balanced(p.realm) && Intact(p.realm)
    && Balanced(p.service) && Intact(p.service)
    && Intact(p.scope)
  }

  /** Exactly when a challenge is read back: if and only if the realm is not empty, no
      value has a quote at either end or a comma that the reader finds outside
      quotes, and the quotes inside realm and service come in pairs. Commas and equal
      signs elsewhere do no harm. */
  lemma {:induction false} ChallengeRoundTrip(scheme: string, gap: string, p: Params)
    requires ToLower(scheme) == "bearer" && Blank(gap)
    ensures Parsed(Render(scheme, gap, p)) == Some(p) <==> p.realm != "" && Sound(p)
  {
    hide Split, ApplyAll, Blank, Intact, Balanced;
    SchemeIsRead(scheme, gap, p);
    var c0, c1, c2 := Params("", "", ""), Params(p.realm, "", ""), Params(p.realm, p.service, "");
    assert Render("", gap, p)[1..] == AllThree(gap, p);
    assert [] + Param("realm", p.realm) == Param("realm", p.realm);
    NothingIsBlank();
    if ApplyAll(c0, Split(AllThree(gap, p), false, [])) == p { RealmIsSound(gap, p); }
    if Balanced(p.realm) && Intact(p.realm) {
      ReadFirst(c0, [], "realm", p.realm, LastTwo(gap, p));
      ReadParam(c0, [], "realm", p.realm);
      if ApplyAll(c1, Split(LastTwo(gap, p), false, [])) == p { ServiceIsSound(gap, p); }
      if Balanced(p.service) && Intact(p.service) {
        ReadFirst(c1, gap, "service", p.service, gap + Param("scope", p.scope));
        ReadParam(c1, gap, "service", p.service);
        ReadParam(c2, gap, "scope", p.scope);
      }
    }
  }

  lemma SchemeIsRead(scheme: string, gap: string, p: Params)
    requires ToLower(scheme) == "bearer"
    ensures var ch := ApplyAll(Params("", "", ""), Split(Render("", gap, p)[1..], false, []));
            Parsed(Render(scheme, gap, p)) == if ch.realm == "" then None else Some(ch)
  {
    hide Split, ApplyAll;
    var h := Render(scheme, gap, p);
    assert |scheme| == |ToLower(scheme)|;
    assert ToLower(h)[..7] == "bearer " by {
      assert forall i :: 0 <= i < 6 ==> ToLower(h)[i] == ToLower(scheme)[i];
    }
    assert h[7..] == Render("", gap, p)[1..];
  }

  /** Quotes are not escapes. For any texts `u` and `w` without quotes: a realm that is
      itself quoted is not read back, nor is one that closes its quotes before a
      comma; one with a pair of quotes in the middle is. */
  lemma {:induction false} QuotesAreNotEscaped(scheme: string, gap: string, u: string, w: string)
    requires ToLower(scheme) == "bearer" && Blank(gap)
    requires u != "" && w != "" && '"' !in u && '"' !in w
    ensures var p := Params("\"" + u + "\"", "", ""); Parsed(Render(scheme, gap, p)) != Some(p)
    ensures var p := Params(u + "\"" + "," + "\"" + w, "", ""); Parsed(Render(scheme, gap, p)) != Some(p)
    ensures var p := Params(u + "\"" + "\"" + w, "", ""); Parsed(Render(scheme, gap, p)) == Some(p)
  {
    hide Parsed, Render, InQuote, Blank, ToLower;
    var quoted, closed, paired := "\"" + u + "\"", u + "\"" + "," + "\"" + w, u + "\"" + "\"" + w;
    NoQuotes(u);
    NoQuotes(w);
    NoQuotes(",");
    NoQuotes("");
    OneQuote();
    InQuoteJoin("\"", u);
    InQuoteJoin("\"" + u, "\"");
    assert !BareEnds(quoted);
    InQuoteJoin(u, "\"");
    InQuoteJoin(u + "\"", ",");
    InQuoteJoin(u + "\"" + ",", "\"");
    InQuoteJoin(u + "\"" + "," + "\"", w);
    var i := |u| + 1;
    assert closed[..i] == u + "\"" && closed[i] == ',' && !Enclosed(closed);
    InQuoteJoin(u + "\"", "\"");
    InQuoteJoin(u + "\"" + "\"", w);
    PairIsIntact(u, w);
    assert Intact("") && Balanced("");
    ChallengeRoundTrip(scheme, gap, Params(quoted, "", ""));
    ChallengeRoundTrip(scheme, gap, Params(closed, "", ""));
    ChallengeRoundTrip(scheme, gap, Params(paired, "", ""));
  }

  lemma {:induction false} PairIsIntact(u: string, w: string)
    requires u != "" && w != "" && '"' !in u && '"' !in w
    ensures Intact(u + "\"" + "\"" + w)
  {
    hide InQuote;
    var head := u + "\"" + "\"";
    var v := head + w;
    assert v[0] in u && v[|v| - 1] == w[|w| - 1] && w[|w| - 1] in w;
    NoQuotes(u);
    OneQuote();
    InQuoteJoin(u, "\"");
    InQuoteJoin(u + "\"", "\"");
    forall i | 0 <= i < |v| && v[i] == ',' ensures !InQuote(v[..i]) {
      if i < |u| {
        assert v[..i] == u[..i];
        NoQuotes(u[..i]);
      } else {
        assert i >= |head|;
        assert v[..i] == head + w[..i - |head|];
        NoQuotes(w[..i - |head|]);
        InQuoteJoin(head, w[..i - |head|]);
      }
    }
  }
}
