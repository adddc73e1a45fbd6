/** The shop page: slugs derived from product names, the object-id test,
    the audience filter (URL parameter over remembered value), the query
    sent for the product list, and the product-to-card projection. */
module ShopPage {
  import opened Wrappers
  import opened Text
  import opened Storage

  // ----- slugs ------------------------------------------------------------

  predicate IsHyphen(c: char) {
    c == '-'
  }

  predicate SlugChars(t: string) {
    forall i :: 0 <= i < |t| ==> IsLowerAlnum(t[i]) || t[i] == '-'
  }

  predicate NoDoubleHyphen(t: string) {
    forall i :: 0 <= i < |t| - 1 ==> !(t[i] == '-' && t[i + 1] == '-')
  }

  /** What a slug looks like: `[a-z0-9-]` only, never two hyphens in a row,
      no hyphen at either end. */
  predicate IsSlug(t: string) {
    && SlugChars(t)
    && NoDoubleHyphen(t)
    && (|t| > 0 ==> t[0] != '-' && t[|t| - 1] != '-')
  }

  /** `replace(/[^a-z0-9]+/g, "-")`: every maximal run of other characters
      becomes a single hyphen. `inRun` says the character before `s` was in
      such a run. `CollapseRunsWords` below states the result in terms of
      the words of `s`. */
  function CollapseRuns(s: string, inRun: bool): string
    decreases |s|
  {
    if s == [] then []
    else if IsLowerAlnum(s[0]) then [s[0]] + CollapseRuns(s[1..], false)
    else if inRun then CollapseRuns(s[1..], true)
    else ['-'] + CollapseRuns(s[1..], true)
  }

  /** The collapsed text holds only `[a-z0-9-]` and never two hyphens in a
      row; inside a run it does not start with a hyphen. */
  lemma {:induction false} CollapseRunsShape(s: string, inRun: bool)
    ensures var r := CollapseRuns(s, inRun);
            SlugChars(r) && NoDoubleHyphen(r) && (inRun && |r| > 0 ==> r[0] != '-')
    decreases |s|
  {
    if s != [] {
      var t := s[1..];
      var inner := !IsLowerAlnum(s[0]);
      CollapseRunsShape(t, inner);
      var c := CollapseRuns(t, inner);
      if IsLowerAlnum(s[0]) || !inRun {
        var r := [if inner then '-' else s[0]] + c;
        assert r == CollapseRuns(s, inRun);
        assert forall i :: 1 <= i < |r| ==> r[i] == c[i - 1];
      }
    }
  }

  /** `toSlug`: lower-case, collapse runs, then drop leading and trailing
      hyphens. */
  function ToSlug(name: string): (r: string)
    ensures IsSlug(r)
  {
    var t := CollapseRuns(Lower(name), false);
    var r := Strip(t, IsHyphen);
    CollapseRunsShape(Lower(name), false);
    assert r == t[StripStart(t, IsHyphen)..StripEnd(t, IsHyphen)];
    r
  }

  /** The letters and digits of a string, in order. */
  function Alnums(s: string): string {
    if s == [] then []
    else if IsLowerAlnum(s[0]) then [s[0]] + Alnums(s[1..])
    else Alnums(s[1..])
  }

  lemma {:induction false} AlnumsAppend(a: string, b: string)
    ensures Alnums(a + b) == Alnums(a) + Alnums(b)
    decreases |a|
  {
    if a == [] {
      assert a + b == b;
    } else {
      assert (a + b)[1..] == a[1..] + b;
      AlnumsAppend(a[1..], b);
    }
  }

  lemma {:induction false} AlnumsOfHyphens(s: string)
    requires forall i :: 0 <= i < |s| ==> s[i] == '-'
    ensures Alnums(s) == []
    decreases |s|
  {
    if s != [] {
      AlnumsOfHyphens(s[1..]);
    }
  }

  lemma {:induction false} CollapseKeepsAlnums(s: string, inRun: bool)
    ensures Alnums(CollapseRuns(s, inRun)) == Alnums(s)
    decreases |s|
  {
    if s != [] {
      CollapseKeepsAlnums(s[1..], false);
      CollapseKeepsAlnums(s[1..], true);
    }
  }

  /** Hyphens around a piece contribute no letter or digit. */
  lemma AlnumsBetweenHyphens(head: string, mid: string, tail: string)
    requires forall m :: 0 <= m < |head| ==> head[m] == '-'
    requires forall m :: 0 <= m < |tail| ==> tail[m] == '-'
    ensures Alnums(head + mid + tail) == Alnums(mid)
  {
    AlnumsOfHyphens(head);
    AlnumsOfHyphens(tail);
    AlnumsAppend(head + mid, tail);
    AlnumsAppend(head, mid);
  }

  /** Cutting hyphens off both ends keeps every letter and digit. */
  lemma AlnumsOfInnerPiece(t: string, i: nat, j: nat)
    requires i <= j <= |t|
    requires forall m :: 0 <= m < i ==> IsHyphen(t[m])
    requires forall m :: j <= m < |t| ==> IsHyphen(t[m])
    ensures Alnums(t[i..j]) == Alnums(t)
  {
    var head, mid, tail := t[..i], t[i..j], t[j..];
    assert t == head + mid + tail;
    assert forall m :: 0 <= m < |head| ==> head[m] == '-' by {
      forall m | 0 <= m < |head| ensures head[m] == '-' {
        assert head[m] == t[m];
      }
    }
    assert forall m :: 0 <= m < |tail| ==> tail[m] == '-' by {
      forall m | 0 <= m < |tail| ensures tail[m] == '-' {
        assert tail[m] == t[j + m];
      }
    }
    AlnumsBetweenHyphens(head, mid, tail);
  }

  lemma StripHyphensKeepsAlnums(t: string)
    ensures Alnums(Strip(t, IsHyphen)) == Alnums(t)
  {
    AlnumsOfInnerPiece(t, StripStart(t, IsHyphen), StripEnd(t, IsHyphen));
  }

  /** A slug keeps every letter and digit of the lower-cased name, in order,
      and drops nothing else of substance: only separators change. */
  lemma SlugKeepsAlnums(name: string)
    ensures Alnums(ToSlug(name)) == Alnums(Lower(name))
  {
    var t := CollapseRuns(Lower(name), false);
    CollapseKeepsAlnums(Lower(name), false);
    StripHyphensKeepsAlnums(t);
  }

  lemma {:induction false} CollapseFixed(t: string, inRun: bool)
    requires SlugChars(t) && NoDoubleHyphen(t)
    requires inRun && |t| > 0 ==> t[0] != '-'
    ensures CollapseRuns(t, inRun) == t
    decreases |t|
  {
    if t != [] {
      CollapseFixed(t[1..], !IsLowerAlnum(t[0]));
      assert [t[0]] + t[1..] == t;
    }
  }

  /** Every slug is its own slug. */
  lemma SlugFixed(t: string)
    requires IsSlug(t)
    ensures ToSlug(t) == t
  {
    assert Lower(t) == t;
    CollapseFixed(t, false);
    StripFixed(t, IsHyphen);
  }

  /** `toSlug` is idempotent. */
  lemma SlugIdempotent(name: string)
    ensures ToSlug(ToSlug(name)) == ToSlug(name)
  {
    SlugFixed(ToSlug(name));
  }

  // ----- slugs as joined words -------------------------------------------

  /** Length of the leading run of `[a-z0-9]` characters. */
  function AlnumRun(s: string): (k: nat)
    ensures k <= |s|
    ensures forall i :: 0 <= i < k ==> IsLowerAlnum(s[i])
    ensures k < |s| ==> !IsLowerAlnum(s[k])
  {
    if s == [] || !IsLowerAlnum(s[0]) then 0 else 1 + AlnumRun(s[1..])
  }

  /** The words of `s`: its maximal runs of `[a-z0-9]`, in order. */
  function Words(s: string): seq<string>
    decreases |s|
  {
    if s == [] then []
    else if !IsLowerAlnum(s[0]) then Words(s[1..])
    else
      var k := AlnumRun(s);
      [s[..k]] + Words(s[k..])
  }

  /** Words joined by single hyphens. */
  function JoinHyphen(ws: seq<string>): string
    decreases |ws|
  {
    if |ws| == 0 then ""
    else if |ws| == 1 then ws[0]
    else ws[0] + "-" + JoinHyphen(ws[1..])
  }

  /** Non-empty and made of `[a-z0-9]` only. */
  predicate IsWord(w: string) {
    |w| > 0 && forall i :: 0 <= i < |w| ==> IsLowerAlnum(w[i])
  }

  /** Every word is a non-empty run of letters and digits. */
  lemma {:induction false} WordsAreWords(s: string)
    ensures forall j :: 0 <= j < |Words(s)| ==> IsWord(Words(s)[j])
    decreases |s|
  {
    if s != [] {
      if !IsLowerAlnum(s[0]) {
        WordsAreWords(s[1..]);
      } else {
        var k := AlnumRun(s);
        WordsAreWords(s[k..]);
        assert IsWord(s[..k]);
      }
    }
  }

  /** A string has no words exactly when it has no letter or digit. */
  lemma {:induction false} NoWordsIffNoAlnum(s: string)
    ensures Words(s) == [] <==> forall i :: 0 <= i < |s| ==> !IsLowerAlnum(s[i])
    decreases |s|
  {
    if s != [] && !IsLowerAlnum(s[0]) {
      NoWordsIffNoAlnum(s[1..]);
      assert forall i :: 1 <= i < |s| ==> s[i] == s[1..][i - 1];
    }
  }

  /** Non-empty alphanumeric words join to a string that starts and ends
      with a letter or digit. */
  lemma {:induction false} JoinHyphenEnds(ws: seq<string>)
    requires |ws| > 0
    requires forall j :: 0 <= j < |ws| ==> IsWord(ws[j])
    ensures |JoinHyphen(ws)| > 0
    ensures IsLowerAlnum(JoinHyphen(ws)[0])
    ensures IsLowerAlnum(JoinHyphen(ws)[|JoinHyphen(ws)| - 1])
    decreases |ws|
  {
    assert IsWord(ws[0]);
    if |ws| > 1 {
      assert forall j :: 0 <= j < |ws[1..]| ==> ws[1..][j] == ws[j + 1];
      JoinHyphenEnds(ws[1..]);
    }
  }

  /** Collapsing a word copies it and carries on after it, outside a run. */
  lemma CollapseWord(s: string, inRun: bool)
    requires |s| > 0 && IsLowerAlnum(s[0])
    ensures CollapseRuns(s, inRun) == s[..AlnumRun(s)] + CollapseRuns(s[AlnumRun(s)..], false)
  {
    var k := AlnumRun(s);
    assert s == s[..k] + s[k..];
    CollapseAlnumPrefix(s[..k], s[k..], inRun);
  }

  /** Letters and digits in front are copied as they are. */
  lemma {:induction false} CollapseAlnumPrefix(a: string, b: string, inRun: bool)
    requires |a| > 0 && forall i :: 0 <= i < |a| ==> IsLowerAlnum(a[i])
    ensures CollapseRuns(a + b, inRun) == a + CollapseRuns(b, false)
    decreases |a|
  {
    var t := a[1..];
    assert (a + b)[1..] == t + b;
    assert CollapseRuns(a + b, inRun) == [a[0]] + CollapseRuns(t + b, false);
    if t == [] {
      assert t + b == b;
      assert [a[0]] == a;
    } else {
      CollapseAlnumPrefix(t, b, false);
      Regroup3([a[0]], t, CollapseRuns(b, false));
      assert [a[0]] + t == a;
    }
  }

  lemma Regroup3(a: string, b: string, c: string)
    ensures a + (b + c) == a + b + c
  {
  }

  /** The hyphen a run of other characters leaves when it ends `s` after a
      word. */
  function TrailingHyphen(s: string): string {
    if Words(s) != [] && !IsLowerAlnum(s[|s| - 1]) then "-" else ""
  }

  lemma SkipStep(s: string)
    requires |s| > 0 && !IsLowerAlnum(s[0])
    requires CollapseRuns(s[1..], true) == JoinHyphen(Words(s[1..])) + TrailingHyphen(s[1..])
    ensures CollapseRuns(s, true) == JoinHyphen(Words(s)) + TrailingHyphen(s)
  {
    var t := s[1..];
    assert Words(s) == Words(t);
    if t != [] {
      assert s[|s| - 1] == t[|t| - 1];
    }
  }

  lemma Regroup(a: string, b: string, c: string, d: string)
    ensures a + (b + (c + d)) == a + b + c + d
  {
  }

  /** A word that ends `s`. */
  lemma LastWordStep(s: string)
    requires |s| > 0 && IsLowerAlnum(s[0]) && AlnumRun(s) == |s|
    ensures CollapseRuns(s, true) == JoinHyphen(Words(s)) + TrailingHyphen(s)
  {
    var k := AlnumRun(s);
    CollapseWord(s, true);
    assert s[..k] == s && s[k..] == [];
    assert Words(s) == [s] + Words([]);
    assert Words(s) == [s];
  }

  /** Joining a word in front of further words puts one hyphen between. */
  lemma JoinHyphenCons(w: string, ws: seq<string>)
    requires ws != []
    ensures JoinHyphen([w] + ws) == w + "-" + JoinHyphen(ws)
  {
    assert ([w] + ws)[1..] == ws;
  }

  /** A word comes first among the words of a string that starts with it. */
  lemma WordsOfWordFirst(s: string)
    requires |s| > 0 && IsLowerAlnum(s[0])
    ensures Words(s) == [s[..AlnumRun(s)]] + Words(s[AlnumRun(s)..])
  {
  }

  /** After a word that does not end `s` comes a run of other characters,
      and `s` ends where that rest ends. */
  lemma WordThenRunEnds(s: string)
    requires |s| > 0 && IsLowerAlnum(s[0]) && AlnumRun(s) < |s|
    ensures var r := s[AlnumRun(s)..];
            |r| > 0 && s[|s| - 1] == r[|r| - 1] && !IsLowerAlnum(r[0])
  {
  }

  /** Collapsing a word that a run of other characters follows. */
  lemma WordThenRunCollapse(s: string)
    requires |s| > 0 && IsLowerAlnum(s[0]) && AlnumRun(s) < |s|
    ensures var k := AlnumRun(s);
            CollapseRuns(s, true) == s[..k] + ("-" + CollapseRuns(s[k..], true))
  {
    var r := s[AlnumRun(s)..];
    CollapseWord(s, true);
    WordThenRunEnds(s);
    assert CollapseRuns(r, false) == "-" + CollapseRuns(r, true);
  }

  /** The trailing hyphen of a word followed by a run of other characters,
      then by `r`: the run itself when no word follows, otherwise `r`'s. */
  lemma TrailingAfterWord(s: string)
    requires |s| > 0 && IsLowerAlnum(s[0]) && AlnumRun(s) < |s|
    ensures var r := s[AlnumRun(s)..];
            TrailingHyphen(s) == if Words(r) == [] then "-" else TrailingHyphen(r)
  {
    var r := s[AlnumRun(s)..];
    WordThenRunEnds(s);
    assert Words(s) != [] by {
      WordsOfWordFirst(s);
    }
    if Words(r) == [] {
      assert !IsLowerAlnum(r[|r| - 1]) by {
        NoWordsIffNoAlnum(r);
      }
    }
  }

  /** A word followed by a run of other characters and nothing else
      collapses to the word and one hyphen. */
  lemma TrailingRunCollapse(s: string)
    requires |s| > 0 && IsLowerAlnum(s[0]) && AlnumRun(s) < |s|
    requires CollapseRuns(s[AlnumRun(s)..], true) == ""
    ensures CollapseRuns(s, true) == s[..AlnumRun(s)] + "-"
  {
    var k := AlnumRun(s);
    var w, cr := s[..k], CollapseRuns(s[k..], true);
    WordThenRunCollapse(s);
    assert "-" + cr == "-";
    assert w + ("-" + cr) == w + "-";
  }

  /** ... and has that word alone. */
  lemma TrailingRunJoin(s: string)
    requires |s| > 0 && IsLowerAlnum(s[0]) && AlnumRun(s) < |s|
    requires Words(s[AlnumRun(s)..]) == []
    ensures JoinHyphen(Words(s)) == s[..AlnumRun(s)]
  {
    WordsOfWordFirst(s);
    assert [s[..AlnumRun(s)]] + [] == [s[..AlnumRun(s)]];
  }

  /** A word followed by a run of other characters and nothing else. */
  lemma WordThenTrailingRun(s: string)
    requires |s| > 0 && IsLowerAlnum(s[0]) && AlnumRun(s) < |s|
    requires Words(s[AlnumRun(s)..]) == []
    requires var r := s[AlnumRun(s)..];
             CollapseRuns(r, true) == JoinHyphen(Words(r)) + TrailingHyphen(r)
    ensures CollapseRuns(s, true) == JoinHyphen(Words(s)) + TrailingHyphen(s)
  {
    var r := s[AlnumRun(s)..];
    assert JoinHyphen(Words(r)) == "" && TrailingHyphen(r) == "";
    TrailingRunCollapse(s);
    TrailingRunJoin(s);
    TrailingAfterWord(s);
  }

  /** A word followed by a run of other characters, then by more words. */
  lemma WordThenMoreWords(s: string)
    requires |s| > 0 && IsLowerAlnum(s[0]) && AlnumRun(s) < |s|
    requires Words(s[AlnumRun(s)..]) != []
    requires var r := s[AlnumRun(s)..];
             CollapseRuns(r, true) == JoinHyphen(Words(r)) + TrailingHyphen(r)
    ensures CollapseRuns(s, true) == JoinHyphen(Words(s)) + TrailingHyphen(s)
  {
    var k := AlnumRun(s);
    var w, r := s[..k], s[k..];
    WordThenRunCollapse(s);
    WordsOfWordFirst(s);
    TrailingAfterWord(s);
    JoinHyphenCons(w, Words(r));
    Regroup(w, "-", JoinHyphen(Words(r)), TrailingHyphen(r));
  }

  /** Inside a run, collapsing emits each word, a single hyphen between two
      words, and a final hyphen when a run of other characters ends `s`
      after a word. */
  lemma {:induction false} CollapseRunsWords(s: string)
    ensures CollapseRuns(s, true) == JoinHyphen(Words(s)) + TrailingHyphen(s)
    decreases |s|
  {
    if s == [] {
    } else if !IsLowerAlnum(s[0]) {
      CollapseRunsWords(s[1..]);
      SkipStep(s);
    } else {
      if AlnumRun(s) == |s| {
        LastWordStep(s);
      } else {
        CollapseRunsWords(s[AlnumRun(s)..]);
        if Words(s[AlnumRun(s)..]) == [] {
          WordThenTrailingRun(s);
        } else {
          WordThenMoreWords(s);
        }
      }
    }
  }

  /** Outside a run, collapsing adds one hyphen for a run of other
      characters at the very start. */
  lemma CollapseRunsStart(s: string)
    ensures CollapseRuns(s, false) ==
            (if |s| > 0 && !IsLowerAlnum(s[0]) then "-" else "") + CollapseRuns(s, true)
  {
  }

  /** The slug is the words of the lower-cased name joined by single
      hyphens: every run of other characters between two words becomes one
      hyphen, and runs at either end vanish. */
  lemma SlugIsJoinedWords(name: string)
    ensures ToSlug(name) == JoinHyphen(Words(Lower(name)))
  {
    var t := Lower(name);
    var ws := Words(t);
    var h1 := if |t| > 0 && !IsLowerAlnum(t[0]) then "-" else "";
    var j, h2 := JoinHyphen(ws), TrailingHyphen(t);
    var c := CollapseRuns(t, false);
    assert c == h1 + j + h2 by {
      CollapseRunsStart(t);
      CollapseRunsWords(t);
    }
    assert Strip(c, IsHyphen) == j by {
      if ws == [] {
        StripHyphensAround(h1, "", "");
      } else {
        WordsAreWords(t);
        JoinHyphenEnds(ws);
        StripHyphensAround(h1, j, h2);
      }
    }
  }

  /** Stripping hyphens from a piece wrapped in hyphens gives back the
      piece, when its own ends are no hyphens. */
  lemma StripHyphensAround(h1: string, j: string, h2: string)
    requires forall m :: 0 <= m < |h1| ==> h1[m] == '-'
    requires forall m :: 0 <= m < |h2| ==> h2[m] == '-'
    requires |j| > 0 ==> j[0] != '-' && j[|j| - 1] != '-'
    requires |j| == 0 ==> |h2| == 0
    ensures Strip(h1 + j + h2, IsHyphen) == j
  {
    var c := h1 + j + h2;
    if |j| == 0 {
      assert c == h1;
      StripAllDropped(c, IsHyphen);
    } else {
      assert c[|h1|..|h1| + |j|] == j;
      assert forall m :: 0 <= m < |h1| ==> c[m] == h1[m];
      assert forall m :: |h1| + |j| <= m < |c| ==> c[m] == h2[m - |h1| - |j|];
      StripWithin(c, IsHyphen, |h1|, |h1| + |j|);
    }
  }

  // ----- object ids -------------------------------------------------------

  function AllHex(s: string): (b: bool)
    ensures b <==> forall i :: 0 <= i < |s| ==> IsHexDigit(s[i])
  {
    |s| == 0 || (IsHexDigit(s[0]) && AllHex(s[1..]))
  }

  /** `/^[a-f0-9]{24}$/i`. */
  function IsObjectId(s: string): (b: bool)
    ensures b <==> |s| == 24 && forall i :: 0 <= i < |s| ==> IsHexDigit(s[i])
  {
    |s| == 24 && AllHex(s)
  }

  // ----- audience filter --------------------------------------------------

  datatype Audience = Her | Him | Unisex

  function AudienceName(a: Audience): string {
    match a
    case Her => "her"
    case Him => "him"
    case Unisex => "unisex"
  }

  /** Only the three exact names are accepted. */
  function ParseAudience(v: string): (a: Option<Audience>)
    ensures a.Some? <==> v == "her" || v == "him" || v == "unisex"
    ensures a.Some? ==> AudienceName(a.value) == v
  {
    if v == "her" then Some(Her)
    else if v == "him" then Some(Him)
    else if v == "unisex" then Some(Unisex)
    else None
  }

  lemma ParseAudienceName(a: Audience)
    ensures ParseAudience(AudienceName(a)) == Some(a)
  {
  }

  /** The remembered audience, if the key holds a valid name. */
  function StoredAudience(store: Store): Option<Audience> {
    if AudienceKey in store && store[AudienceKey].Raw? then ParseAudience(store[AudienceKey].text) else None
  }

  datatype AudienceResolution = AudienceResolution(filter: Option<Audience>, store: Store)

  /** The effect on the `audience` parameter: a valid parameter wins and is
      remembered; otherwise a valid remembered value is used; otherwise the
      filter is left as it was (`current`, null on first render). */
  function ResolveAudience(param: Option<string>, current: Option<Audience>, store: Store): (r: AudienceResolution)
    ensures param.Some? && ParseAudience(param.value).Some? ==>
              r.filter == ParseAudience(param.value) && r.store == Put(store, AudienceKey, Raw(param.value))
    ensures !(param.Some? && ParseAudience(param.value).Some?) ==> r.store == store
    ensures !(param.Some? && ParseAudience(param.value).Some?) && StoredAudience(store).Some? ==>
              r.filter == StoredAudience(store)
    ensures !(param.Some? && ParseAudience(param.value).Some?) && StoredAudience(store).None? ==>
              r.filter == current
  {
    if param.Some? && ParseAudience(param.value).Some? then
      AudienceResolution(ParseAudience(param.value), Put(store, AudienceKey, Raw(param.value)))
    else if StoredAudience(store).Some? then
      AudienceResolution(StoredAudience(store), store)
    else
      AudienceResolution(current, store)
  }

  /** A chosen audience survives a visit without the parameter. */
  lemma AudienceRemembered(param: string, current: Option<Audience>, later: Option<Audience>, store: Store)
    requires ParseAudience(param).Some?
    ensures var first := ResolveAudience(Some(param), current, store);
            ResolveAudience(None, later, first.store).filter == first.filter
  {
  }

  // ----- product query ----------------------------------------------------

  /** The query parameters of `GET /products`: `q` when the trimmed search
      is non-empty, then `gender` for her or him only. */
  function ProductQuery(search: string, audience: Option<Audience>): (r: seq<(string, string)>)
    ensures |r| == (if Trim(search) != "" then 1 else 0) + (if audience == Some(Her) || audience == Some(Him) then 1 else 0)
    ensures Trim(search) != "" ==> r[0].0 == "q"
    ensures forall i :: 0 <= i < |r| ==> r[i].0 == "q" || r[i].0 == "gender"
    ensures (exists i :: 0 <= i < |r| && r[i].0 == "q") <==> Trim(search) != ""
    ensures forall i :: 0 <= i < |r| && r[i].0 == "q" ==> r[i].1 == Trim(search)
    ensures (exists i :: 0 <= i < |r| && r[i].0 == "gender") <==> audience == Some(Her) || audience == Some(Him)
    ensures forall i :: 0 <= i < |r| && r[i].0 == "gender" ==>
              r[i].1 == (if audience == Some(Her) then "women" else "men")
  {
    var q := Trim(search);
    var qs := if q != "" then [("q", q)] else [];
    var gs := if audience == Some(Her) then [("gender", "women")]
              else if audience == Some(Him) then [("gender", "men")]
              else [];
    var r := qs + gs;
    assert forall i :: 0 <= i < |r| ==> r[i] == (if i < |qs| then qs[i] else gs[i - |qs|]);
    assert q != "" ==> r[0].0 == "q";
    assert gs != [] ==> r[|qs|].0 == "gender";
    r
  }

  // ----- cards ------------------------------------------------------------

  /** A product's category: a bare string (a name or an id) or a populated
      object. */
  datatype Category = CategoryText(text: string) | CategoryObject(id: string, name: string)

  datatype ApiProduct = ApiProduct(
    id: string,
    name: string,
    description: Option<string>,
    price: int,
    images: Option<seq<string>>,
    category: Option<Category>,
    totalStock: Option<int>)

  datatype CardItem = CardItem(
    id: string,
    slug: string,
    name: string,
    price: int,
    image: string,
    category: Option<string>,
    description: string,
    stock: int)

  /** The category label: a bare id is hidden, a bare name shown, an object
      shows its name. */
  function CardCategory(c: Option<Category>): (r: Option<string>)
    ensures c.None? ==> r.None?
    ensures c.Some? && c.value.CategoryText? ==> (r.None? <==> IsObjectId(c.value.text))
    ensures c.Some? && c.value.CategoryText? && r.Some? ==> r.value == c.value.text
    ensures c.Some? && c.value.CategoryObject? ==> r == Some(c.value.name)
  {
    match c
    case None => None
    case Some(CategoryText(t)) => if IsObjectId(t) then None else Some(t)
    case Some(CategoryObject(_, n)) => Some(n)
  }

  /** The card for one product. */
  function ToCard(p: ApiProduct): (card: CardItem)
    ensures card.id == p.id && card.name == p.name && card.price == p.price
    ensures card.slug == ToSlug(p.name) && IsSlug(card.slug)
    ensures card.image == (if p.images.Some? && |p.images.value| > 0 then p.images.value[0] else "")
    ensures card.category == CardCategory(p.category)
    ensures card.description == p.description.GetOr("")
    ensures card.stock == p.totalStock.GetOr(0)
  {
    CardItem(
      p.id,
      ToSlug(p.name),
      p.name,
      p.price,
      if p.images.Some? && |p.images.value| > 0 then p.images.value[0] else "",
      CardCategory(p.category),
      p.description.GetOr(""),
      p.totalStock.GetOr(0))
  }

  /** The grid: one card per product, in order. */
  function CardProducts(products: seq<ApiProduct>): (cards: seq<CardItem>)
    ensures |cards| == |products|
    ensures forall i :: 0 <= i < |cards| ==> cards[i] == ToCard(products[i])
  {
    seq(|products|, i requires 0 <= i < |products| => ToCard(products[i]))
  }

  // ----- loading the list -------------------------------------------------

  const ProductsFailedError := "Failed to load products."

  /** Reply to `GET /products`. */
  datatype ProductsResponse =
    | ProductsBody(products: seq<ApiProduct>)
    | ProductsHttpError
    | ProductsNetworkError(reason: string)

  datatype ProductsState = ProductsState(products: seq<ApiProduct>, error: string)

  /** A settled load: a body replaces the list and clears the error; a
      failure sets the error and keeps the list already held. */
  function LoadProducts(current: seq<ApiProduct>, response: ProductsResponse): (r: ProductsState)
    ensures response.ProductsBody? ==> r == ProductsState(response.products, "")
    ensures response.ProductsHttpError? ==> r == ProductsState(current, ProductsFailedError)
    ensures response.ProductsNetworkError? ==> r == ProductsState(current, response.reason)
    ensures r.error == "" ==> r.products == (if response.ProductsBody? then response.products else current)
  {
    match response
    case ProductsBody(ps) => ProductsState(ps, "")
    case ProductsHttpError => ProductsState(current, ProductsFailedError)
    case ProductsNetworkError(reason) => ProductsState(current, reason)
  }

  /** The grid once loading has settled: the cards while no error is set,
      the error message alone otherwise. */
  function GridCards(s: ProductsState): seq<CardItem> {
    if s.error == "" then CardProducts(s.products) else []
  }

  /** A body shows one card per product received; a failure with a message
      shows no card at all, the earlier list staying hidden behind the
      error; only a transport failure with an empty message leaves the
      earlier cards on screen. */
  lemma GridAfterLoad(current: seq<ApiProduct>, response: ProductsResponse)
    ensures response.ProductsBody? ==>
              GridCards(LoadProducts(current, response)) == CardProducts(response.products)
    ensures response.ProductsHttpError? ==> GridCards(LoadProducts(current, response)) == []
    ensures response.ProductsNetworkError? && response.reason != "" ==>
              GridCards(LoadProducts(current, response)) == []
    ensures response.ProductsNetworkError? && response.reason == "" ==>
              GridCards(LoadProducts(current, response)) == CardProducts(current)
  {
  }
}
