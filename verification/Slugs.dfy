/** Slug derivation: two regular-expression replacements on the lower-cased name. */
module Slugs {
  predicate IsAlnum(c: char) {
    'a' <= c <= 'z' || '0' <= c <= '9'
  }

  function RunLength(s: string, alnum: bool): (n: nat)
    ensures n <= |s| && (forall i :: 0 <= i < n ==> IsAlnum(s[i]) == alnum)
    ensures n < |s| ==> IsAlnum(s[n]) != alnum
  {
    if s == "" || IsAlnum(s[0]) != alnum then 0 else 1 + RunLength(s[1..], alnum)
  }

  /** `replace(/[^a-z0-9]+/g, '-')`: every maximal run of other characters becomes one dash. */
  function Collapse(s: string): string {
    if s == "" then ""
    else if IsAlnum(s[0]) then [s[0]] + Collapse(s[1..])
    else "-" + Collapse(s[RunLength(s, false)..])
  }

  function TrimEnd(s: string): string {
    if s != "" && s[|s| - 1] == '-' then s[..|s| - 1] else s
  }

  /** `replace(/(^-|-$)+/g, '')`: one dash at the start and one at the end, if they are there. */
  function Trim(s: string): string {
    TrimEnd(if s != "" && s[0] == '-' then s[1..] else s)
  }

  function Slugify(lowered: string): string {
    Trim(Collapse(lowered))
  }

  // ------------------------------------------------------------ reference: words joined by dashes

  /** The maximal runs of letters and digits. */
  function Words(s: string): seq<string> {
    if s == "" then []
    else if !IsAlnum(s[0]) then Words(s[1..])
    else [s[..RunLength(s, true)]] + Words(s[RunLength(s, true)..])
  }

  function Dashed(words: seq<string>): string {
    if words == [] then ""
    else if |words| == 1 then words[0]
    else words[0] + "-" + Dashed(words[1..])
  }

  lemma {:induction false} CollapseRun(s: string, n: nat)
    requires n <= |s| && forall i :: 0 <= i < n ==> IsAlnum(s[i])
    ensures Collapse(s) == s[..n] + Collapse(s[n..])
    decreases n
  {
    if n > 0 {
      CollapseRun(s[1..], n - 1);
      assert s[..n] == [s[0]] + s[1..][..n - 1] && s[n..] == s[1..][n - 1..];
    }
  }

  lemma {:induction false} SkipSeparators(s: string, n: nat)
    requires n <= |s| && forall i :: 0 <= i < n ==> !IsAlnum(s[i])
    ensures Words(s) == Words(s[n..])
    decreases n
  {
    if n > 0 {
      SkipSeparators(s[1..], n - 1);
      assert s[n..] == s[1..][n - 1..];
    }
  }

  lemma TrimEndAppend(a: string, b: string)
    requires b != ""
    ensures TrimEnd(a + b) == a + TrimEnd(b)
  {
    assert (a + b)[|a + b| - 1] == b[|b| - 1];
    assert (a + b)[..|a + b| - 1] == a + b[..|b| - 1];
  }

  /** What follows a word: nothing, or separators that collapse to one dash and hold no word. */
  lemma AfterWord(rest: string) returns (after: string)
    requires rest == "" || !IsAlnum(rest[0])
    ensures |after| <= |rest| && (after != "" ==> IsAlnum(after[0]))
    ensures Collapse(rest) == (if rest == "" then "" else "-" + Collapse(after))
    ensures rest == "" ==> after == ""
    ensures Words(rest) == Words(after)
  {
    var m := RunLength(rest, false);
    after := rest[m..];
    SkipSeparators(rest, m);
  }

  /** The first word and what lies behind the separators after it. */
  lemma FirstWord(s: string) returns (word: string, after: string)
    requires s != "" && IsAlnum(s[0])
    ensures word != "" && IsAlnum(word[|word| - 1]) && |after| < |s| && (after != "" ==> IsAlnum(after[0]))
    ensures (Collapse(s) == word + "" && after == "") || Collapse(s) == word + ("-" + Collapse(after))
    ensures Words(s) == [word] + Words(after)
  {
    var n := RunLength(s, true);
    word := s[..n];
    after := AfterWord(s[n..]);
    CollapseRun(s, n);
    assert word[|word| - 1] == s[n - 1];
  }

  /** One more word in front: on the collapsed side, and on the side of the words. */
  lemma OneMoreWord(word: string, tail: string, words: seq<string>)
    requires tail != "" && words != [] && TrimEnd(tail) == Dashed(words)
    ensures TrimEnd(word + ("-" + tail)) == Dashed([word] + words)
  {
    TrimEndAppend(word + "-", tail);
    assert word + ("-" + tail) == (word + "-") + tail;
    assert ([word] + words)[1..] == words;
  }

  lemma OnlyWord(word: string)
    requires word != "" && IsAlnum(word[|word| - 1])
    ensures TrimEnd(word + "") == Dashed([word] + [])
    ensures TrimEnd(word + ("-" + "")) == Dashed([word] + [])
  {
    assert word + "" == word && "-" + "" == "-" && [word] + [] == [word];
    TrimEndAppend(word, "-");
    assert TrimEnd("-") == "";
  }

  lemma {:induction false} CollapsedWords(s: string)
    requires s != "" && IsAlnum(s[0])
    ensures TrimEnd(Collapse(s)) == Dashed(Words(s))
    ensures Collapse(s) != "" && Words(s) != []
    decreases |s|
  {
    var word, after := FirstWord(s);
    if after == "" {
      OnlyWord(word);
    } else {
      CollapsedWords(after);
      OneMoreWord(word, Collapse(after), Words(after));
    }
  }

  /** The slug is the words of the name joined by single dashes. */
  lemma SlugIsDashedWords(s: string)
    ensures Slugify(s) == Dashed(Words(s))
  {
    if s != "" {
      var m := RunLength(s, false);
      SkipSeparators(s, m);
      if m == 0 {
        CollapsedWords(s);
        assert s[m..] == s;
      } else if s[m..] == "" {
        assert Collapse(s) == "-";
      } else {
        CollapsedWords(s[m..]);
        assert Collapse(s)[1..] == Collapse(s[m..]);
      }
    }
  }

  // ------------------------------------------------------------ shape

  predicate IsWord(w: string) {
    w != "" && forall c <- w :: IsAlnum(c)
  }

  /** Letters, digits and single inner dashes only. */
  predicate SlugShape(s: string) {
    && (forall i :: 0 <= i < |s| ==> IsAlnum(s[i]) || s[i] == '-')
    && (s != "" ==> s[0] != '-' && s[|s| - 1] != '-')
    && (forall i :: 0 <= i < |s| - 1 ==> !(s[i] == '-' && s[i + 1] == '-'))
  }

  lemma {:induction false} WordsAreWords(s: string)
    ensures forall w <- Words(s) :: IsWord(w)
    decreases |s|
  {
    if s != "" {
      if !IsAlnum(s[0]) {
        WordsAreWords(s[1..]);
      } else {
        WordsAreWords(s[RunLength(s, true)..]);
      }
    }
  }

  lemma ShapeJoin(w: string, tail: string)
    requires IsWord(w) && SlugShape(tail) && tail != ""
    ensures SlugShape(w + "-" + tail)
  {
    var s := w + "-" + tail;
    assert forall i :: 0 <= i < |w| ==> w[i] in w && s[i] == w[i];
    assert s[|w|] == '-';
    assert forall i :: |w| < i < |s| ==> s[i] == tail[i - |w| - 1];
  }

  lemma {:induction false} RunOf(w: string, tail: string)
    requires (forall c <- w :: IsAlnum(c)) && (tail != "" ==> !IsAlnum(tail[0]))
    ensures RunLength(w + tail, true) == |w|
    decreases w
  {
    if w == "" {
      assert w + tail == tail;
    } else {
      assert w[0] in w && forall c <- w[1..] :: c in w;
      RunOf(w[1..], tail);
      assert (w + tail)[1..] == w[1..] + tail;
    }
  }

  lemma WordsJoin(w: string, tail: string)
    requires IsWord(w)
    ensures Words(w) == [w] && Words(w + ("-" + tail)) == [w] + Words(tail)
  {
    assert w[0] in w;
    RunOf(w, "");
    assert w + "" == w && w[..|w|] == w && w[|w|..] == "";
    var s := w + ("-" + tail);
    RunOf(w, "-" + tail);
    assert s[0] == w[0] && s[..|w|] == w && s[|w|..] == "-" + tail;
    assert ("-" + tail)[1..] == tail;
  }

  lemma WordShape(w: string)
    requires IsWord(w)
    ensures SlugShape(w)
  {
    assert forall i :: 0 <= i < |w| ==> w[i] in w;
  }

  lemma {:induction false} DashedShape(words: seq<string>)
    requires forall w <- words :: IsWord(w)
    ensures SlugShape(Dashed(words)) && (words != [] ==> Dashed(words) != "")
    decreases words
  {
    if words != [] {
      assert words[0] in words;
      if |words| == 1 {
        WordShape(words[0]);
      } else {
        assert forall x <- words[1..] :: x in words;
        DashedShape(words[1..]);
        ShapeJoin(words[0], Dashed(words[1..]));
      }
    }
  }

  lemma {:induction false} WordsOfDashed(words: seq<string>)
    requires forall w <- words :: IsWord(w)
    ensures Words(Dashed(words)) == words
    decreases words
  {
    if words != [] {
      var w := words[0];
      assert w in words;
      if |words| == 1 {
        WordsJoin(w, "");
        assert words == [w];
      } else {
        var tail := Dashed(words[1..]);
        assert forall x <- words[1..] :: x in words;
        WordsOfDashed(words[1..]);
        WordsJoin(w, tail);
        assert w + "-" + tail == w + ("-" + tail);
        assert words == [w] + words[1..];
      }
    }
  }

  /** Every derived slug is well shaped, and deriving a slug from a well-shaped slug returns it unchanged. */
  lemma SlugsAreStable(s: string)
    ensures SlugShape(Slugify(s))
    ensures Words(Slugify(s)) == Words(s)
    ensures Slugify(Slugify(s)) == Slugify(s)
  {
    SlugIsDashedWords(s);
    WordsAreWords(s);
    DashedShape(Words(s));
    WordsOfDashed(Words(s));
    SlugIsDashedWords(Slugify(s));
  }

  /** The letters and digits of a text, in order. */
  function Letters(s: string): string {
    if s == "" then ""
    else (if 'a' <= s[0] <= 'z' || '0' <= s[0] <= '9' then [s[0]] else "") + Letters(s[1..])
  }

  function Concat(words: seq<string>): string {
    if words == [] then "" else words[0] + Concat(words[1..])
  }

  lemma {:induction false} LettersOfRun(s: string, n: nat)
    requires n <= |s| && forall i :: 0 <= i < n ==> IsAlnum(s[i])
    ensures Letters(s) == s[..n] + Letters(s[n..])
    decreases n
  {
    if n > 0 {
      LettersOfRun(s[1..], n - 1);
      assert s[..n] == [s[0]] + s[1..][..n - 1] && s[n..] == s[1..][n - 1..];
    }
  }

  lemma {:induction false} LettersAreWords(s: string)
    ensures Letters(s) == Concat(Words(s))
    decreases |s|
  {
    if s != "" {
      if !IsAlnum(s[0]) {
        LettersAreWords(s[1..]);
      } else {
        var n := RunLength(s, true);
        LettersOfRun(s, n);
        LettersAreWords(s[n..]);
        assert ([s[..n]] + Words(s[n..]))[1..] == Words(s[n..]);
      }
    }
  }

  /** A slug keeps every lower-case letter and digit of the name, in order, and adds nothing but dashes. */
  lemma SlugKeepsLetters(s: string)
    ensures Letters(Slugify(s)) == Letters(s)
    ensures forall c <- Slugify(s) :: 'a' <= c <= 'z' || '0' <= c <= '9' || c == '-'
  {
    SlugsAreStable(s);
    LettersAreWords(s);
    LettersAreWords(Slugify(s));
  }

  /** Exactly the well-shaped strings are fixed by the derivation. */
  lemma FixedIffShaped(s: string)
    ensures Slugify(s) == s <==> SlugShape(s)
  {
    SlugsAreStable(s);
    if SlugShape(s) {
      CollapseShaped(s);
    }
  }

  lemma {:induction false} CollapseShaped(s: string)
    requires forall i :: 0 <= i < |s| ==> IsAlnum(s[i]) || s[i] == '-'
    requires forall i :: 0 <= i < |s| - 1 ==> !(s[i] == '-' && s[i + 1] == '-')
    ensures Collapse(s) == s
    decreases |s|
  {
    if s != "" {
      if IsAlnum(s[0]) {
        CollapseShaped(s[1..]);
      } else {
        assert RunLength(s, false) == 1 by {
          if |s| > 1 {
            assert IsAlnum(s[1]);
            assert RunLength(s[1..], false) == 0;
          }
        }
        CollapseShaped(s[1..]);
      }
    }
  }
}
