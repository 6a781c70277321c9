/** What the parser makes of any challenge, however it is written: keys in any case,
    white space around them, quoted and unquoted values, unknown and repeated keys. */
module ChallengeParts {
  import opened Common
  import opened Challenge
  import opened ChallengeReading

  lemma {:induction false} TrimRightBlank(s: string, gap: string)
    requires Blank(gap) && (s == [] || !Space(s[|s| - 1]))
    ensures TrimRight(s + gap, Space) == s
    decreases |gap|
  {
    if gap == [] {
      assert s + gap == s;
    } else {
      var n := |gap| - 1;
      assert (s + gap)[..|s + gap| - 1] == s + gap[..n] && gap[n] in gap;
      assert forall c :: c in gap[..n] ==> c in gap;
      TrimRightBlank(s, gap[..n]);
    }
  }

  /** Nothing to trim at either end. */
  predicate BareOf(s: string, drop: char -> bool) {
    s == "" || (!drop(s[0]) && !drop(s[|s| - 1]))
  }

  lemma {:induction false} TrimAround(left: string, s: string, right: string)
    requires Blank(left) && Blank(right) && BareOf(s, Space)
    ensures TrimSpace(left + s + right) == s
  {
    if s == "" {
      assert left + s + right == left + right;
      BlankTogether(left, right);
      TrimLeftBlank(left + right, "");
      assert (left + right) + "" == left + s + right;
      TrimNothing(Space);
    } else {
      assert left + s + right == left + (s + right);
      TrimLeftBlank(left, s + right);
      TrimRightBlank(s, right);
    }
  }

  lemma BlankTogether(a: string, b: string)
    requires Blank(a) && Blank(b)
    ensures Blank(a + b)
  {
  }

  lemma {:induction false} NothingToCut(part: string)
    requires '=' !in part
    ensures Cut(part).None?
  {
    if part != [] {
      assert part[0] in part && forall c :: c in part[1..] ==> c in part;
      NothingToCut(part[1..]);
    }
  }

  /** A part without an equal sign says nothing; otherwise the key counts in any case and
      with any white space around it, and keys other than the three say nothing. */
  lemma {:induction false} PartIsRead(ch: Params, left: string, k: string, right: string, raw: string)
    requires Blank(left) && Blank(right) && BareOf(k, Space) && '=' !in left + k + right
    ensures Apply(ch, left + k + right) == ch
    ensures var part := left + k + right + "=" + raw;
            var v := TrimQuotes(TrimSpace(raw));
            && (ToLower(k) == "realm" ==> Apply(ch, part) == ch.(realm := v))
            && (ToLower(k) == "service" ==> Apply(ch, part) == ch.(service := v))
            && (ToLower(k) == "scope" ==> Apply(ch, part) == ch.(scope := v))
            && (ToLower(k) !in {"realm", "service", "scope"} ==> Apply(ch, part) == ch)
  {
    hide TrimSpace, TrimQuotes, ToLower, Blank;
    NothingToCut(left + k + right);
    CutAtFirst(left + k + right, raw);
    TrimAround(left, k, right);
  }

  /** Unquoted values are read as they are, white space around them dropped; quotes
      around a value, one or more, are dropped too. */
  lemma {:induction false} ValueIsRead(left: string, v: string, right: string)
    requires Blank(left) && Blank(right) && BareOf(v, Quote)
    ensures BareOf(v, Space) ==> TrimQuotes(TrimSpace(left + v + right)) == v
    ensures TrimQuotes(TrimSpace(left + ("\"" + v + "\"") + right)) == v
  {
    hide TrimLeft, TrimRight;
    QuoteIsNoSpace();
    TrimAround(left, "\"" + v + "\"", right);
    TrimQuoted(v);
    if BareOf(v, Space) {
      TrimAround(left, v, right);
      if v != "" { TrimBare(v, Quote); } else { TrimNothing(Quote); }
    }
  }

  /** What a part sets a key to, if it is for that key. */
  function Sets(part: string, key: string): Option<string> {
    match Cut(part)
    case None => None
    case Some((k, raw)) => if ToLower(TrimSpace(k)) == key then Some(TrimQuotes(TrimSpace(raw))) else None
  }

  /** None of the parts from `i` on is for the key. */
  ghost predicate NoneFrom(parts: seq<string>, key: string, i: int) {
    forall j :: 0 <= i <= j < |parts| ==> Sets(parts[j], key).None?
  }

  /** Parts for other keys leave a value as it is. */
  lemma {:induction false} UnsetStays(ch: Params, parts: seq<string>, key: string)
    requires Key(key) && NoneFrom(parts, key, 0)
    ensures Get(ApplyAll(ch, parts), key) == Get(ch, key)
    decreases |parts|
  {
    hide Sets, Apply, Get;
    if parts != [] {
      var n := |parts| - 1;
      assert forall i :: 0 <= i < n ==> parts[..n][i] == parts[i];
      UnsetStays(ch, parts[..n], key);
      SetsIs(ApplyAll(ch, parts[..n]), parts[n], key);
    }
  }

  /** Of several parts for one key the last counts. */
  lemma {:induction false} LastOneCounts(ch: Params, parts: seq<string>, key: string, i: int)
    requires Key(key) && 0 <= i < |parts| && Sets(parts[i], key).Some? && NoneFrom(parts, key, i + 1)
    ensures Get(ApplyAll(ch, parts), key) == Sets(parts[i], key).value
  {
    hide Sets, Apply, Get, ApplyAll;
    var first, rest := parts[..i + 1], parts[i + 1..];
    assert parts == first + rest;
    ApplyConcat(ch, first, rest);
    assert forall j :: 0 <= j < |rest| ==> rest[j] == parts[i + 1 + j];
    UnsetStays(ApplyAll(ch, first), rest, key);
    assert first == parts[..i] + [parts[i]];
    ApplyConcat(ch, parts[..i], [parts[i]]);
    ApplyOne(ApplyAll(ch, parts[..i]), parts[i]);
    SetsIs(ApplyAll(ch, parts[..i]), parts[i], key);
  }

  lemma SetsIs(ch: Params, part: string, key: string)
    requires Key(key)
    ensures Get(Apply(ch, part), key) == match Sets(part, key) case Some(v) => v case None => Get(ch, key)
  {
    hide TrimSpace, TrimQuotes, ToLower;
  }

  /** A challenge is one exactly if its scheme is Bearer, in any case, and some realm is
      left at the end that is not empty. */
  lemma IsChallengeIff(h: string)
    ensures Parsed(h).Some? <==>
              && |h| >= 7 && ToLower(h)[..7] == "bearer "
              && ApplyAll(Params("", "", ""), Split(h[7..], false, [])).realm != ""
    ensures Parsed(h).Some? ==> Parsed(h).value == ApplyAll(Params("", "", ""), Split(h[7..], false, []))
  {
  }
}
