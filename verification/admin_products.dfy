/**
 * The product editor: URL slugs derived from the English name, the slug chosen
 * on submit, and the list of image URL fields.
 */
module AdminProducts {
  import opened Wrappers
  import opened Text
  import opened Domain
  import Seqs

  // ------------------------------------------------------------------ slugs

  /** The characters a slug keeps: lower-case ASCII letters and digits. */
  predicate IsSlugChar(c: char) {
    'a' <= c <= 'z' || '0' <= c <= '9'
  }

  /** Only slug characters and dashes, and never two dashes in a row. */
  predicate DashSeparated(s: string) {
    && (forall i :: 0 <= i < |s| ==> IsSlugChar(s[i]) || s[i] == '-')
    && (forall i :: 0 <= i < |s| - 1 ==> !(s[i] == '-' && s[i + 1] == '-'))
  }

  /** A well-formed slug: dash-separated, neither starting nor ending with a dash. */
  predicate IsSlug(s: string) {
    DashSeparated(s) && (|s| > 0 ==> s[0] != '-' && s[|s| - 1] != '-')
  }

  /** `s` without its leading run of non-slug characters. */
  function DropNonSlug(s: string): (r: string)
    ensures |r| <= |s| && r == s[|s| - |r|..]
    ensures r != [] ==> IsSlugChar(r[0])
    ensures forall i :: 0 <= i < |s| - |r| ==> !IsSlugChar(s[i])
  {
    if s == [] || IsSlugChar(s[0]) then s else DropNonSlug(s[1..])
  }

  /** Every maximal run of non-slug characters replaced by one dash (the global `/[^a-z0-9]+/` replace). */
  function CollapseRuns(s: string): (r: string)
    ensures DashSeparated(r)
    ensures r == [] <==> s == []
    ensures s != [] ==> (r[0] == '-' <==> !IsSlugChar(s[0]))
    decreases |s|
  {
    if s == [] then []
    else if IsSlugChar(s[0]) then
      var rest := CollapseRuns(s[1..]);
      ConsDashSeparated(s[0], rest);
      [s[0]] + rest
    else
      var rest := CollapseRuns(DropNonSlug(s[1..]));
      ConsDashSeparated('-', rest);
      "-" + rest
  }

  /** A slug character, or a dash not followed by another, can be put in front of a dash-separated string. */
  lemma ConsDashSeparated(c: char, t: string)
    requires DashSeparated(t) && (IsSlugChar(c) || c == '-')
    requires c == '-' && t != [] ==> t[0] != '-'
    ensures DashSeparated([c] + t)
  {
    var r := [c] + t;
    forall i | 1 <= i < |r| ensures r[i] == t[i - 1] {
    }
  }

  /** The leading dash removed, if there is one. */
  function DropLeadingDash(t: string): (a: string)
    ensures |t| > 0 && t[0] == '-' ==> a == t[1..]
    ensures !(|t| > 0 && t[0] == '-') ==> a == t
  {
    if |t| > 0 && t[0] == '-' then t[1..] else t
  }

  /** The trailing dash removed, if there is one. */
  function DropTrailingDash(a: string): (r: string)
    ensures |a| > 0 && a[|a| - 1] == '-' ==> r == a[..|a| - 1]
    ensures !(|a| > 0 && a[|a| - 1] == '-') ==> r == a
  {
    if |a| > 0 && a[|a| - 1] == '-' then a[..|a| - 1] else a
  }

  /** One leading and one trailing dash removed (the global `/(^-|-$)/` replace). */
  function StripEdgeDashes(t: string): (r: string)
    ensures var i := if |t| > 0 && t[0] == '-' then 1 else 0;
      var j := if |t| > i && t[|t| - 1] == '-' then |t| - 1 else |t|;
      r == t[i..j]
    ensures DashSeparated(t) ==> IsSlug(r)
    ensures IsSlug(t) ==> r == t
  {
    var a := DropLeadingDash(t);
    var r := DropTrailingDash(a);
    StripSlice(t, a, r);
    StripSliceSlug(t, r);
    r
  }

  lemma StripSlice(t: string, a: string, r: string)
    requires a == DropLeadingDash(t) && r == DropTrailingDash(a)
    ensures var i := if |t| > 0 && t[0] == '-' then 1 else 0;
      var j := if |t| > i && t[|t| - 1] == '-' then |t| - 1 else |t|;
      r == t[i..j]
  {
    var i := if |t| > 0 && t[0] == '-' then 1 else 0;
    assert a == t[i..];
    if |t| > i {
      assert a[|a| - 1] == t[|t| - 1];
    }
  }

  /** The slice between the edge dashes of a dash-separated string is a slug. */
  lemma StripSliceSlug(t: string, r: string)
    requires var i := if |t| > 0 && t[0] == '-' then 1 else 0;
      var j := if |t| > i && t[|t| - 1] == '-' then |t| - 1 else |t|;
      r == t[i..j]
    ensures DashSeparated(t) ==> IsSlug(r)
    ensures IsSlug(t) ==> r == t
  {
    var i := if |t| > 0 && t[0] == '-' then 1 else 0;
    var j := if |t| > i && t[|t| - 1] == '-' then |t| - 1 else |t|;
    if DashSeparated(t) {
      forall k | 0 <= k < |r| ensures r[k] == t[i + k] {
      }
      if |r| > 0 && i == 1 {
        assert r[0] == t[1];
      }
      if |r| > 0 && j == |t| - 1 {
        assert r[|r| - 1] == t[|t| - 2];
      }
    }
  }

  /** Trimming the edge dashes drops no letter or digit. */
  lemma StripKeepsSlugChars(t: string)
    ensures Seqs.Filter(StripEdgeDashes(t), IsSlugChar) == Seqs.Filter(t, IsSlugChar)
  {
    var a := DropLeadingDash(t);
    if a != t {
      assert t == "-" + a;
      Seqs.FilterAppend("-", a, IsSlugChar);
    }
    var r := DropTrailingDash(a);
    if r != a {
      assert a == r + "-";
      Seqs.FilterAppend(r, "-", IsSlugChar);
    }
  }

  /** `generateSlug`: lower-case, collapse runs of other characters to a dash, trim edge dashes. */
  function GenerateSlug(name: string): (r: string)
    ensures IsSlug(r)
    ensures Seqs.Filter(r, IsSlugChar) == Seqs.Filter(Lower(name), IsSlugChar)
  {
    CollapseKeepsSlugChars(Lower(name));
    StripKeepsSlugChars(CollapseRuns(Lower(name)));
    StripEdgeDashes(CollapseRuns(Lower(name)))
  }

  /** Collapsing keeps the slug characters, all of them and in order. */
  lemma {:induction false} CollapseKeepsSlugChars(s: string)
    ensures Seqs.Filter(CollapseRuns(s), IsSlugChar) == Seqs.Filter(s, IsSlugChar)
    decreases |s|
  {
    if s != [] {
      if IsSlugChar(s[0]) {
        CollapseKeepsSlugChars(s[1..]);
        Seqs.FilterAppend([s[0]], CollapseRuns(s[1..]), IsSlugChar);
      } else {
        var rest := DropNonSlug(s[1..]);
        CollapseKeepsSlugChars(rest);
        Seqs.FilterAppend("-", CollapseRuns(rest), IsSlugChar);
        DropNonSlugKeeps(s[1..]);
      }
    }
  }

  /** Skipping a run of non-slug characters loses no slug character. */
  lemma {:induction false} DropNonSlugKeeps(t: string)
    ensures Seqs.Filter(DropNonSlug(t), IsSlugChar) == Seqs.Filter(t, IsSlugChar)
    decreases |t|
  {
    if t != [] && !IsSlugChar(t[0]) {
      DropNonSlugKeeps(t[1..]);
    }
  }

  lemma {:induction false} NothingKept(s: string)
    ensures Seqs.Filter(s, (c: char) => false) == []
  {
    if s != [] {
      NothingKept(s[1..]);
    }
  }

  /** A name with no ASCII letter or digit gives the empty slug. */
  lemma NoAlphanumericsEmptySlug(name: string)
    requires forall i :: 0 <= i < |name| ==> !IsSlugChar(LowerChar(name[i]))
    ensures GenerateSlug(name) == ""
  {
    var r := GenerateSlug(name);
    var lowered := Lower(name);
    Seqs.FilterExt(lowered, IsSlugChar, (c: char) => false);
    NothingKept(lowered);
  }

  /** Collapsing leaves a dash-separated string as it is. */
  lemma {:induction false} CollapseFixed(t: string)
    requires DashSeparated(t)
    ensures CollapseRuns(t) == t
    decreases |t|
  {
    if t != [] {
      assert DashSeparated(t[1..]);
      if !IsSlugChar(t[0]) {
        assert DropNonSlug(t[1..]) == t[1..];
      }
      CollapseFixed(t[1..]);
      assert t == [t[0]] + t[1..];
    }
  }

  /** A well-formed slug is its own slug. */
  lemma SlugFixed(t: string)
    requires IsSlug(t)
    ensures GenerateSlug(t) == t
  {
    assert Lower(t) == t;
    CollapseFixed(t);
  }

  /** `generateSlug` is idempotent. */
  lemma GenerateSlugIdempotent(name: string)
    ensures GenerateSlug(GenerateSlug(name)) == GenerateSlug(name)
  {
    SlugFixed(GenerateSlug(name));
  }

  /** The shop's own name gives the sample slug. */
  lemma ShopNameSlug()
    ensures GenerateSlug("Sandhi Wedanaharanie") == "sandhi-wedanaharanie"
  {
    var word, tail := "sandhi", "wedanaharanie";
    LowerShopName();
    ShopNameParts(word, tail);
    CollapseShopName(Lower("Sandhi Wedanaharanie"), word, tail);
    SampleSlugWellFormed();
  }

  lemma LowerShopName()
    ensures Lower("Sandhi Wedanaharanie") == "sandhi wedanaharanie"
  {
  }

  /** The lowered name and the slug as two words around a separator. */
  lemma ShopNameParts(word: string, tail: string)
    requires word == "sandhi" && tail == "wedanaharanie"
    ensures "sandhi wedanaharanie" == word + [' '] + tail
    ensures "sandhi-wedanaharanie" == word + "-" + tail
  {
  }

  lemma CollapseShopName(lowered: string, word: string, tail: string)
    requires word == "sandhi" && tail == "wedanaharanie" && lowered == word + [' '] + tail
    ensures CollapseRuns(lowered) == word + "-" + tail
  {
    ShopWords(word, tail);
    CollapseTwoWords(word, ' ', tail);
  }

  lemma ShopWords(word: string, tail: string)
    requires word == "sandhi" && tail == "wedanaharanie"
    ensures forall i :: 0 <= i < |word| ==> IsSlugChar(word[i])
    ensures tail != [] && forall i :: 0 <= i < |tail| ==> IsSlugChar(tail[i])
  {
  }

  /** Two runs of slug characters around one separator become word-dash-word. */
  lemma CollapseTwoWords(word: string, sep: char, tail: string)
    requires forall i :: 0 <= i < |word| ==> IsSlugChar(word[i])
    requires !IsSlugChar(sep) && tail != [] && forall i :: 0 <= i < |tail| ==> IsSlugChar(tail[i])
    ensures CollapseRuns(word + [sep] + tail) == word + "-" + tail
  {
    CollapseFixed(tail);
    CollapseSplit(word, sep, tail);
  }

  lemma SampleSlugWellFormed()
    ensures IsSlug("sandhi-wedanaharanie")
  {
  }

  /** A dash-separated word, one separator, and a word starting with a slug character collapse to word-dash-word. */
  lemma {:induction false} CollapseSplit(word: string, sep: char, tail: string)
    requires forall i :: 0 <= i < |word| ==> IsSlugChar(word[i])
    requires !IsSlugChar(sep) && tail != [] && IsSlugChar(tail[0])
    ensures CollapseRuns(word + [sep] + tail) == word + "-" + CollapseRuns(tail)
    decreases |word|
  {
    if word == [] {
      assert word + [sep] + tail == [sep] + tail;
      CollapseSeparator(sep, tail);
    } else {
      var rest := word[1..] + [sep] + tail;
      ConsRegroup(word, [sep], tail);
      CollapseSplit(word[1..], sep, tail);
      CollapseSlugHead(word[0], rest);
      ConsRegroup(word, "-", CollapseRuns(tail));
    }
  }

  lemma ConsRegroup(w: string, d: string, t: string)
    requires w != []
    ensures w + d + t == [w[0]] + (w[1..] + d + t)
  {
    assert w == [w[0]] + w[1..];
  }

  /** A slug character is kept as it is. */
  lemma CollapseSlugHead(c: char, rest: string)
    requires IsSlugChar(c)
    ensures CollapseRuns([c] + rest) == [c] + CollapseRuns(rest)
  {
    assert ([c] + rest)[1..] == rest;
  }

  /** A single separator before a slug character becomes one dash. */
  lemma CollapseSeparator(sep: char, tail: string)
    requires !IsSlugChar(sep) && tail != [] && IsSlugChar(tail[0])
    ensures CollapseRuns([sep] + tail) == "-" + CollapseRuns(tail)
  {
    assert ([sep] + tail)[1..] == tail;
    assert DropNonSlug(tail) == tail;
  }

  // ------------------------------------------------------------------ words

  /** A non-empty run of slug characters. */
  predicate IsWord(w: string) {
    w != [] && forall i :: 0 <= i < |w| ==> IsSlugChar(w[i])
  }

  /** The longest prefix of `s` made of slug characters. */
  function Word(s: string): (w: string)
    ensures |w| <= |s| && w == s[..|w|]
    ensures forall i :: 0 <= i < |w| ==> IsSlugChar(s[i])
    ensures |w| < |s| ==> !IsSlugChar(s[|w|])
  {
    if s != [] && IsSlugChar(s[0]) then [s[0]] + Word(s[1..]) else []
  }

  /** The maximal runs of slug characters in `s`, left to right. */
  function Words(s: string): (ws: seq<string>)
    ensures forall k :: 0 <= k < |ws| ==> IsWord(ws[k])
    decreases |s|
  {
    if s == [] then []
    else if !IsSlugChar(s[0]) then Words(s[1..])
    else
      var w := Word(s);
      [w] + Words(s[|w|..])
  }

  /** `words.join('-')`, which is empty for no words. */
  function JoinWords(ws: seq<string>): string {
    if ws == [] then "" else Join(ws, '-')
  }

  /**
   * `generateSlug` keeps the maximal runs of letters and digits of the lower-cased
   * name and puts exactly one dash between neighbouring runs, and no dash elsewhere.
   */
  lemma GenerateSlugWords(name: string)
    ensures GenerateSlug(name) == JoinWords(Words(Lower(name)))
  {
    var s := Lower(name);
    CollapseRunsWords(s);
    JoinWordsEdges(Words(s));
    StripAround(LeadDash(s), JoinWords(Words(s)), TrailDash(s));
  }

  /** A dash for a leading run of other characters. */
  function LeadDash(s: string): string {
    if s != [] && !IsSlugChar(s[0]) then "-" else ""
  }

  /** A dash for a trailing run of other characters after the last word. */
  function TrailDash(s: string): string {
    if s != [] && Words(s) != [] && !IsSlugChar(s[|s| - 1]) then "-" else ""
  }

  /** The collapsed string is the words joined by dashes, with a dash for each edge run of other characters. */
  predicate CollapseShape(s: string) {
    CollapseRuns(s) == LeadDash(s) + JoinWords(Words(s)) + TrailDash(s)
  }

  /** Collapsing puts one dash for each run of other characters: between words, and at either edge. */
  lemma {:induction false} CollapseRunsWords(s: string)
    ensures CollapseShape(s)
    decreases |s|
  {
    if s != [] {
      if !IsSlugChar(s[0]) {
        var t := DropNonSlug(s[1..]);
        CollapseRunsWords(t);
        WordsDropNonSlug(s[1..]);
        CollapseOtherHead(s, t);
      } else {
        CollapseRunsWords(s[1..]);
        CollapseSlugCase(s);
      }
    }
  }

  lemma CollapseSlugCase(s: string)
    requires s != [] && IsSlugChar(s[0])
    requires CollapseShape(s[1..])
    ensures CollapseShape(s)
  {
    var c, u := s[0], s[1..];
    assert s == [c] + u;
    assert CollapseShape([c] + u) by {
      if u == [] {
        SlugAtEnd(c, u);
      } else if IsSlugChar(u[0]) {
        SlugInWord(c, u);
      } else if Words(u) == [] {
        NoWordsNoSlug(u);
        SlugBeforeNoWords(c, u);
      } else {
        SlugBeforeWords(c, u);
      }
    }
  }

  /** A slug character at the end is a word of its own. */
  lemma SlugAtEnd(c: char, u: string)
    requires IsSlugChar(c) && u == []
    ensures CollapseShape([c] + u)
  {
    CollapseSlugHead(c, u);
    WordsSlugCons(c, u);
    assert [c] + u == [c];
  }

  /** A slug character before another one extends the first word. */
  lemma SlugInWord(c: char, u: string)
    requires IsSlugChar(c) && u != [] && IsSlugChar(u[0])
    requires CollapseShape(u)
    ensures CollapseShape([c] + u)
  {
    var s := [c] + u;
    CollapseSlugHead(c, u);
    WordsSlugCons(c, u);
    JoinGlueFirst(c, Words(u), '-');
    assert JoinWords(Words(s)) == [c] + JoinWords(Words(u));
    assert LeadDash(u) == "" && LeadDash(s) == "";
    assert s[|s| - 1] == u[|u| - 1];
    assert TrailDash(s) == TrailDash(u);
    Regroup([c], CollapseRuns(u), LeadDash(u), JoinWords(Words(u)), TrailDash(u),
      JoinWords(Words(s)), TrailDash(s));
  }

  /** A slug character followed only by other characters is the last word, and a dash follows it. */
  lemma SlugBeforeNoWords(c: char, u: string)
    requires IsSlugChar(c) && u != [] && !IsSlugChar(u[0]) && !IsSlugChar(u[|u| - 1]) && Words(u) == []
    requires CollapseShape(u)
    ensures CollapseShape([c] + u)
  {
    var s := [c] + u;
    CollapseSlugHead(c, u);
    WordsSlugCons(c, u);
    assert Words(s) == [[c]];
    assert s[|s| - 1] == u[|u| - 1];
    assert TrailDash(s) == "-";
    assert CollapseRuns(u) == "-";
  }

  /** A slug character before a run of other characters and more words is a word of its own. */
  lemma SlugBeforeWords(c: char, u: string)
    requires IsSlugChar(c) && u != [] && !IsSlugChar(u[0]) && Words(u) != []
    requires CollapseShape(u)
    ensures CollapseShape([c] + u)
  {
    var s := [c] + u;
    CollapseSlugHead(c, u);
    WordsSlugCons(c, u);
    JoinAfterSingle(c, Words(u));
    assert s[|s| - 1] == u[|u| - 1];
    assert TrailDash(s) == TrailDash(u);
    assert LeadDash(u) == "-" && LeadDash(s) == "";
    Regroup([c], CollapseRuns(u), LeadDash(u), JoinWords(Words(u)), TrailDash(u),
      JoinWords(Words(s)), TrailDash(s));
  }

  /** Concatenation regrouped: `head` in front of `lead + j + trail` is `j'` and `trail`. */
  lemma Regroup(head: string, c: string, lead: string, j: string, trail: string, j': string, trail': string)
    requires c == lead + j + trail && trail' == trail
    requires j' == head + lead + j || (lead == "" && j' == head + j)
    ensures head + c == "" + j' + trail'
  {
  }

  lemma CollapseOtherHead(s: string, t: string)
    requires s != [] && !IsSlugChar(s[0]) && t == DropNonSlug(s[1..])
    requires Words(t) == Words(s[1..])
    requires CollapseShape(t)
    ensures CollapseShape(s)
  {
    assert CollapseRuns(s) == "-" + CollapseRuns(t);
    assert LeadDash(t) == "" && LeadDash(s) == "-";
    assert Words(s) == Words(t);
    if t != [] {
      assert t[|t| - 1] == s[|s| - 1];
    }
    assert TrailDash(t) == TrailDash(s);
    DashInFront(CollapseRuns(t), LeadDash(t), JoinWords(Words(t)), TrailDash(t));
  }

  lemma DashInFront(c: string, lead: string, j: string, trail: string)
    requires lead == "" && c == lead + j + trail
    ensures "-" + c == "-" + j + trail
  {
  }

  /** A word of one character followed by further words. */
  lemma JoinAfterSingle(c: char, ws: seq<string>)
    requires ws != []
    ensures JoinWords([[c]] + ws) == [c] + "-" + JoinWords(ws)
  {
    assert ([[c]] + ws)[1..] == ws;
  }

  /** A slug character in front of `u` either extends the first word of `u` or starts a word of its own. */
  lemma WordsSlugCons(c: char, u: string)
    requires IsSlugChar(c)
    ensures u != [] && IsSlugChar(u[0]) ==> Words([c] + u) == [[c] + Words(u)[0]] + Words(u)[1..]
    ensures !(u != [] && IsSlugChar(u[0])) ==> Words([c] + u) == [[c]] + Words(u)
  {
    var s := [c] + u;
    assert s[1..] == u;
    assert Word(s) == [c] + Word(u);
    if u != [] && IsSlugChar(u[0]) {
      var w := Word(u);
      assert s[|w| + 1..] == u[|w|..];
    }
  }

  /** Other characters in front do not change the words. */
  lemma {:induction false} WordsDropNonSlug(u: string)
    ensures Words(DropNonSlug(u)) == Words(u)
    decreases |u|
  {
    if u != [] && !IsSlugChar(u[0]) {
      WordsDropNonSlug(u[1..]);
    }
  }

  /** A string without words has no slug character. */
  lemma {:induction false} NoWordsNoSlug(u: string)
    requires Words(u) == []
    ensures forall i :: 0 <= i < |u| ==> !IsSlugChar(u[i])
    decreases |u|
  {
    if u != [] {
      NoWordsNoSlug(u[1..]);
      assert forall i :: 1 <= i < |u| ==> u[i] == u[1..][i - 1];
    }
  }

  /** Joined words start and end with a slug character. */
  lemma {:induction false} JoinWordsEdges(ws: seq<string>)
    requires forall k :: 0 <= k < |ws| ==> IsWord(ws[k])
    ensures ws != [] ==>
      |JoinWords(ws)| > 0 && IsSlugChar(JoinWords(ws)[0]) && IsSlugChar(JoinWords(ws)[|JoinWords(ws)| - 1])
    decreases |ws|
  {
    if |ws| > 1 {
      JoinWordsEdges(ws[1..]);
      assert IsWord(ws[0]);
    } else if ws != [] {
      assert IsWord(ws[0]);
    }
  }

  /** Stripping the edge dashes of dash, words, dash leaves the words. */
  lemma StripAround(lead: string, j: string, trail: string)
    requires lead == "" || lead == "-"
    requires trail == "" || trail == "-"
    requires j == "" ==> trail == ""
    requires j != [] ==> IsSlugChar(j[0]) && IsSlugChar(j[|j| - 1])
    ensures StripEdgeDashes(lead + j + trail) == j
  {
    var t := lead + j + trail;
    var i, k := |lead|, |t| - |trail|;
    assert t[i..k] == j by {
      assert t[..k] == lead + j;
    }
    assert i == (if |t| > 0 && t[0] == '-' then 1 else 0)
        && k == (if |t| > i && t[|t| - 1] == '-' then |t| - 1 else |t|) by {
      EdgeDashes(lead, j, trail);
    }
    StripCut(t, i, k);
  }

  /** In dash, words, dash the edge dashes are exactly the lead and trail dashes. */
  lemma EdgeDashes(lead: string, j: string, trail: string)
    requires lead == "" || lead == "-"
    requires trail == "" || trail == "-"
    requires j == "" ==> trail == ""
    requires j != [] ==> IsSlugChar(j[0]) && IsSlugChar(j[|j| - 1])
    ensures var t := lead + j + trail;
      && ((|t| > 0 && t[0] == '-') <==> lead == "-")
      && ((|t| > |lead| && t[|t| - 1] == '-') <==> trail == "-")
  {
    var t := lead + j + trail;
    if lead == "" && j != [] {
      assert t[0] == j[0];
    }
    if trail == "" && j != [] {
      assert t[|t| - 1] == j[|j| - 1];
    }
  }

  lemma StripCut(t: string, i: nat, k: nat)
    requires i == if |t| > 0 && t[0] == '-' then 1 else 0
    requires k == if |t| > i && t[|t| - 1] == '-' then |t| - 1 else |t|
    ensures i <= k <= |t| && StripEdgeDashes(t) == t[i..k]
  {
  }

  // ------------------------------------------------------------------ the form

  datatype ProductForm = ProductForm(
    nameSi: string,
    nameEn: string,
    slug: string,
    descriptionSi: string,
    descriptionEn: string,
    priceLkr: int,
    stock: int,
    featured: bool,
    images: seq<string>)

  /** The blank form: every text empty, numbers 0, one empty image field. */
  const EmptyForm := ProductForm("", "", "", "", "", 0, 0, false, [""])

  function FormOf(p: Product): ProductForm {
    ProductForm(p.nameSi, p.nameEn, p.slug, p.descriptionSi, p.descriptionEn, p.priceLkr, p.stock, p.featured, p.images)
  }

  /** The slug saved on submit: the typed one unless empty, otherwise one made from the English name. */
  function SlugOnSubmit(form: ProductForm): (slug: string)
    ensures form.slug != "" ==> slug == form.slug
    ensures form.slug == "" ==> slug == GenerateSlug(form.nameEn) && IsSlug(slug)
  {
    if form.slug != "" then form.slug else GenerateSlug(form.nameEn)
  }

  /** The record sent to the product service: the form with the slug chosen on submit. */
  function ProductData(form: ProductForm): (data: ProductForm)
    ensures data.slug == SlugOnSubmit(form)
    ensures data.(slug := form.slug) == form
  {
    form.(slug := SlugOnSubmit(form))
  }

  /** `filter((_, i) => i !== index)`, walking positions from `pos`. */
  function DropPosition(s: seq<string>, index: int, pos: int): (r: seq<string>)
    ensures |r| == if pos <= index < pos + |s| then |s| - 1 else |s|
    decreases |s|
  {
    if s == [] then [] else (if pos != index then [s[0]] else []) + DropPosition(s[1..], index, pos + 1)
  }

  /** Removing position `index` drops exactly that element when it exists and nothing otherwise. */
  lemma DropPositionSpec(s: seq<string>, index: int, pos: int)
    ensures pos <= index < pos + |s| ==> DropPosition(s, index, pos) == s[..index - pos] + s[index - pos + 1..]
    ensures !(pos <= index < pos + |s|) ==> DropPosition(s, index, pos) == s
  {
    if pos <= index < pos + |s| {
      DropPositionHit(s, index, pos);
    } else {
      DropPositionMiss(s, index, pos);
    }
  }

  lemma {:induction false} DropPositionHit(s: seq<string>, index: int, pos: int)
    requires pos <= index < pos + |s|
    ensures DropPosition(s, index, pos) == s[..index - pos] + s[index - pos + 1..]
    decreases |s|
  {
    if pos == index {
      DropPositionMiss(s[1..], index, pos + 1);
      assert s[..0] + s[1..] == s[1..];
    } else {
      var t, k := s[1..], index - pos;
      DropPositionHit(t, index, pos + 1);
      assert DropPosition(s, index, pos) == [s[0]] + (t[..k - 1] + t[k..]);
      assert s[..k] == [s[0]] + t[..k - 1];
      assert s[k + 1..] == t[k..];
    }
  }

  lemma {:induction false} DropPositionMiss(s: seq<string>, index: int, pos: int)
    requires !(pos <= index < pos + |s|)
    ensures DropPosition(s, index, pos) == s
    decreases |s|
  {
    if s != [] {
      DropPositionMiss(s[1..], index, pos + 1);
      assert s == [s[0]] + s[1..];
    }
  }

  function RemoveImage(images: seq<string>, index: int): (r: seq<string>)
    ensures 0 <= index < |images| ==> r == images[..index] + images[index + 1..]
    ensures !(0 <= index < |images|) ==> r == images
  {
    DropPositionSpec(images, index, 0);
    DropPosition(images, index, 0)
  }

  /** Removing the field just added gives back the list before the addition. */
  lemma RemoveUndoesAdd(images: seq<string>)
    ensures RemoveImage(images + [""], |images|) == images
  {
    assert (images + [""])[..|images|] == images;
  }

  class ProductEditor {
    var formData: ProductForm
    var isModalOpen: bool
    var editing: Option<Product>

    constructor ()
      ensures formData == EmptyForm && !isModalOpen && editing == None
    {
      formData, isModalOpen, editing := EmptyForm, false, None;
    }

    /** `openModal`: the form filled from the product being edited, or blank for a new one. */
    method OpenModal(product: Option<Product>)
      modifies this
      ensures editing == product && isModalOpen
      ensures formData == if product.Some? then FormOf(product.value) else EmptyForm
    {
      editing := product;
      formData := if product.Some? then FormOf(product.value) else EmptyForm;
      isModalOpen := true;
    }

    method CloseModal()
      modifies this
      ensures !isModalOpen && editing == None && formData == old(formData)
    {
      isModalOpen := false;
      editing := None;
    }

    /** `handleImageChange`: a copy of the image list with one entry overwritten. */
    method HandleImageChange(index: nat, value: string)
      requires index < |formData.images|
      modifies this
      ensures |formData.images| == |old(formData.images)| && formData.images[index] == value
      ensures forall i :: 0 <= i < |formData.images| && i != index ==> formData.images[i] == old(formData.images)[i]
      ensures formData.(images := old(formData.images)) == old(formData)
      ensures isModalOpen == old(isModalOpen) && editing == old(editing)
    {
      var images := formData.images;
      var newImages := new string[|images|](i requires 0 <= i < |images| => images[i]);
      newImages[index] := value;
      formData := formData.(images := newImages[..]);
    }

    /** `addImageField`: one more empty field at the end. */
    method AddImageField()
      modifies this
      ensures formData.images == old(formData.images) + [""]
      ensures formData.(images := old(formData.images)) == old(formData)
      ensures isModalOpen == old(isModalOpen) && editing == old(editing)
    {
      formData := formData.(images := formData.images + [""]);
    }

    /** `removeImageField`: the field at `index` gone, the others kept in order. */
    method RemoveImageField(index: int)
      modifies this
      ensures formData.images == RemoveImage(old(formData.images), index)
      ensures formData.(images := old(formData.images)) == old(formData)
      ensures isModalOpen == old(isModalOpen) && editing == old(editing)
    {
      formData := formData.(images := RemoveImage(formData.images, index));
    }
  }
}
