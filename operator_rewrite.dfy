/**
 * The textual operator rewrite of the list middleware: every whole word `gt`,
 * `gte`, `lt`, `lte` or `in` of the serialised filter gets a `$` in front of
 * it, so that the document store reads it as a comparison operator.
 *
 * `MarkWords` walks the text one maximal word (or one other character) at a
 * time. `MarkMatches` states the regular expression `\b(w1|w2|...)\b` with the
 * global flag position by position, with `\b` written out; `MarkWordsIsRegex`
 * proves the two equal. `UnmarkWords` removes the inserted markers again. The
 * lemmas are stated for any list of alternatives made of word characters and
 * instantiated for the five operators.
 */
module OperatorRewrite {
  import opened Text

  /** The alternatives of `/\b(gt|gte|lt|lte|in)\b/g`, in the order the expression tries them. */
  const Alternatives: seq<string> := ["gt", "gte", "lt", "lte", "in"]

  /** Length of the run of word characters at the start of `s`. */
  function WordLength(s: string): (n: nat)
    ensures n <= |s|
    ensures n == |s| || !IsWordChar(s[n])
  {
    if s == [] || !IsWordChar(s[0]) then 0 else 1 + WordLength(s[1..])
  }

  /** The leading run consists of word characters only. */
  lemma {:induction false} WordRunChars(s: string)
    ensures forall i :: 0 <= i < WordLength(s) ==> IsWordChar(s[i])
  {
    if s != [] && IsWordChar(s[0]) {
      WordRunChars(s[1..]);
      assert forall i :: 1 <= i < WordLength(s) ==> s[i] == s[1..][i - 1];
    }
  }

  /** What is written before a whole word: `$` for one of the alternatives, nothing otherwise. */
  function Marker(w: string, words: seq<string>): string {
    if w in words then "$" else ""
  }

  /** The replacement, one maximal word or one non-word character at a time. */
  function MarkWords(s: string, words: seq<string>): string
    decreases |s|
  {
    if s == [] then []
    else if !IsWordChar(s[0]) then [s[0]] + MarkWords(s[1..], words)
    else
      var n := WordLength(s);
      Marker(s[..n], words) + s[..n] + MarkWords(s[n..], words)
  }

  /** `queryStr.replace(/\b(gt|gte|lt|lte|in)\b/g, (match) => `$${match}`)`. */
  function Rewrite(s: string): (r: string)
    ensures |r| == |s| + Matches(s, 0, Alternatives)
  {
    AlternativesAreWords();
    MarkWordsIsRegex(s, Alternatives);
    MarkMatchesLength(s, 0, Alternatives);
    MarkWords(s, Alternatives)
  }

  /** Drops each `$` that stands right before a whole word among the alternatives, keeps everything else. */
  function UnmarkWords(t: string, words: seq<string>): string
    decreases |t|
  {
    if t == [] then []
    else if IsWordChar(t[0]) then
      var n := WordLength(t);
      t[..n] + UnmarkWords(t[n..], words)
    else if t[0] == '$' && |t| > 1 && IsWordChar(t[1]) && t[1..1 + WordLength(t[1..])] in words then
      UnmarkWords(t[1..], words)
    else [t[0]] + UnmarkWords(t[1..], words)
  }

  /** `\b w \b` matches at position `i` of `s`. */
  predicate WholeWordAt(s: string, i: nat, w: string) {
    && i + |w| <= |s|
    && s[i..i + |w|] == w
    && (i == 0 || !IsWordChar(s[i - 1]))
    && (i + |w| == |s| || !IsWordChar(s[i + |w|]))
  }

  /** `\b(w1|w2|...)\b` matches at position `i` of `s`. */
  predicate MatchAt(s: string, i: nat, words: seq<string>) {
    words != [] && (WholeWordAt(s, i, words[0]) || MatchAt(s, i, words[1..]))
  }

  /** Reference meaning of a global replacement: a `$` before every match position, every character kept. */
  function MarkMatches(s: string, i: nat, words: seq<string>): string
    decreases |s| - i
  {
    if i >= |s| then []
    else (if MatchAt(s, i, words) then "$" else "") + [s[i]] + MarkMatches(s, i + 1, words)
  }

  /** The regular expression `/\b(gt|gte|lt|lte|in)\b/` matches at position `i` of `s`. */
  predicate OperatorAt(s: string, i: nat) {
    MatchAt(s, i, Alternatives)
  }

  /** The alternatives are non-empty runs of word characters. */
  predicate WordList(words: seq<string>) {
    && [] !in words
    && forall j, k :: 0 <= j < |words| && 0 <= k < |words[j]| ==> IsWordChar(words[j][k])
  }

  lemma AlternativesAreWords()
    ensures WordList(Alternatives)
  {
  }

  lemma WordListTail(words: seq<string>)
    requires words != [] && WordList(words)
    ensures WordList(words[1..])
  {
    forall j, k | 0 <= j < |words[1..]| && 0 <= k < |words[1..][j]|
      ensures IsWordChar(words[1..][j][k])
    {
      assert words[1..][j] == words[j + 1];
    }
  }

  /** A text that starts outside a word. */
  predicate StartsOutsideWord(s: string) {
    s == [] || !IsWordChar(s[0])
  }

  lemma MarkWordsStartsOutsideWord(s: string, words: seq<string>)
    requires StartsOutsideWord(s)
    ensures StartsOutsideWord(MarkWords(s, words))
  {
  }

  lemma MarkWordsUnfold(t: string, words: seq<string>)
    requires t != [] && IsWordChar(t[0])
    ensures MarkWords(t, words)
         == Marker(t[..WordLength(t)], words) + t[..WordLength(t)] + MarkWords(t[WordLength(t)..], words)
  {
  }

  /** A word followed by a non-word character (or nothing) is exactly the leading word run. */
  lemma {:induction false} WordLengthOfWord(w: string, rest: string)
    requires forall i :: 0 <= i < |w| ==> IsWordChar(w[i])
    requires StartsOutsideWord(rest)
    ensures WordLength(w + rest) == |w|
  {
    if w != [] {
      WordLengthOfWord(w[1..], rest);
      TailOfConcat(w, rest);
    }
  }

  /** A whole-word match of a word at a word start is the word run that starts there. */
  lemma WholeWordIsWordRun(s: string, i: nat, w: string)
    requires i < |s| && IsWordChar(s[i])
    requires i == 0 || !IsWordChar(s[i - 1])
    requires w != [] && forall k :: 0 <= k < |w| ==> IsWordChar(w[k])
    ensures WholeWordAt(s, i, w) <==> s[i..i + WordLength(s[i..])] == w
  {
    var n := WordLength(s[i..]);
    if s[i..i + n] == w {
      assert i + n == |s| || s[i + n] == s[i..][n];
    } else if WholeWordAt(s, i, w) {
      assert s[i..] == w + s[i + |w|..];
      WordLengthOfWord(w, s[i + |w|..]);
    }
  }

  /** At a word start, the expression matches exactly when the whole word is one of the alternatives. */
  lemma {:induction false} MatchAtWordStart(s: string, i: nat, words: seq<string>)
    requires i < |s| && IsWordChar(s[i])
    requires i == 0 || !IsWordChar(s[i - 1])
    requires WordList(words)
    ensures MatchAt(s, i, words) <==> s[i..i + WordLength(s[i..])] in words
  {
    if words != [] {
      assert words[0] in words;
      WholeWordIsWordRun(s, i, words[0]);
      WordListTail(words);
      MatchAtWordStart(s, i, words[1..]);
      HeadTail(words);
    }
  }

  /** No match starts right after a word character. */
  lemma {:induction false} NoMatchAfterWordChar(s: string, j: nat, words: seq<string>)
    requires 1 <= j && j - 1 < |s| && IsWordChar(s[j - 1])
    ensures !MatchAt(s, j, words)
  {
    if words != [] {
      NoMatchAfterWordChar(s, j, words[1..]);
    }
  }

  lemma WholeWordStartsWith(s: string, j: nat, w: string)
    requires w != [] && WholeWordAt(s, j, w)
    ensures s[j] == w[0]
  {
    assert s[j] == s[j..j + |w|][0];
  }

  /** No match starts at a character that is not a word character. */
  lemma {:induction false} NoMatchAtNonWordChar(s: string, j: nat, words: seq<string>)
    requires j < |s| && !IsWordChar(s[j])
    requires WordList(words)
    ensures !MatchAt(s, j, words)
  {
    if words != [] {
      assert words[0] in words;
      if WholeWordAt(s, j, words[0]) {
        WholeWordStartsWith(s, j, words[0]);
      }
      WordListTail(words);
      NoMatchAtNonWordChar(s, j, words[1..]);
    }
  }

  lemma MarkMatchesUnfold(s: string, i: nat, words: seq<string>)
    requires i < |s|
    ensures MarkMatches(s, i, words)
         == (if MatchAt(s, i, words) then "$" else "") + [s[i]] + MarkMatches(s, i + 1, words)
  {
  }

  /** Inside a word the expression cannot match, so the characters pass unchanged. */
  lemma {:induction false} MarkMatchesInsideWord(s: string, j: nat, e: nat, words: seq<string>)
    requires 1 <= j <= e <= |s|
    requires forall k :: j - 1 <= k < e ==> IsWordChar(s[k])
    ensures MarkMatches(s, j, words) == s[j..e] + MarkMatches(s, e, words)
    decreases e - j
  {
    if j < e {
      NoMatchAfterWordChar(s, j, words);
      MarkMatchesInsideWord(s, j + 1, e, words);
      MarkMatchesUnfold(s, j, words);
      SliceCons(s, j, e);
    }
  }

  lemma WordRunInside(s: string, i: nat)
    requires i <= |s|
    ensures forall k :: i <= k < i + WordLength(s[i..]) ==> IsWordChar(s[k])
  {
    var t := s[i..];
    WordRunChars(t);
    forall k | i <= k < i + WordLength(t)
      ensures IsWordChar(s[k])
    {
      assert s[k] == t[k - i];
    }
  }

  /** After the first character of a word, the reference copies the rest of the word. */
  lemma MarkMatchesRestOfWord(s: string, i: nat, words: seq<string>)
    requires i < |s| && IsWordChar(s[i])
    ensures var n := WordLength(s[i..]);
      n >= 1 && MarkMatches(s, i + 1, words) == s[i + 1..i + n] + MarkMatches(s, i + n, words)
  {
    var n := WordLength(s[i..]);
    assert s[i..][0] == s[i];
    WordRunInside(s, i);
    MarkMatchesInsideWord(s, i + 1, i + n, words);
  }

  /** At a word start, the marker of the whole word is the reference's marker. */
  lemma MarkerAtWordStart(s: string, i: nat, words: seq<string>)
    requires i < |s| && IsWordChar(s[i])
    requires i == 0 || !IsWordChar(s[i - 1])
    requires WordList(words)
    ensures Marker(s[i..i + WordLength(s[i..])], words) == if MatchAt(s, i, words) then "$" else ""
  {
    MatchAtWordStart(s, i, words);
  }

  lemma ConcatStep(m: string, c: char, a: string, rest: string, w: string)
    requires w == [c] + a
    ensures m + [c] + (a + rest) == m + w + rest
  {
  }

  /** From a word start, the reference writes the marker of the whole word, then the word. */
  lemma MarkMatchesAtWord(s: string, i: nat, words: seq<string>)
    requires i < |s| && IsWordChar(s[i])
    requires i == 0 || !IsWordChar(s[i - 1])
    requires WordList(words)
    ensures var n := WordLength(s[i..]);
      MarkMatches(s, i, words) == Marker(s[i..i + n], words) + s[i..i + n] + MarkMatches(s, i + n, words)
  {
    var n := WordLength(s[i..]);
    MarkMatchesRestOfWord(s, i, words);
    MarkerAtWordStart(s, i, words);
    MarkMatchesUnfold(s, i, words);
    SliceCons(s, i, i + n);
    ConcatStep(Marker(s[i..i + n], words), s[i], s[i + 1..i + n], MarkMatches(s, i + n, words), s[i..i + n]);
  }

  /** The word-by-word replacement of the suffix from a word boundary equals the reference from there. */
  lemma {:induction false} MarkWordsSuffix(s: string, i: nat, words: seq<string>)
    requires i <= |s|
    requires i == 0 || i == |s| || !IsWordChar(s[i - 1]) || !IsWordChar(s[i])
    requires WordList(words)
    ensures MarkWords(s[i..], words) == MarkMatches(s, i, words)
    decreases |s| - i, 1
  {
    if i < |s| {
      if !IsWordChar(s[i]) {
        MarkWordsSuffixNonWord(s, i, words);
      } else {
        MarkWordsSuffixWord(s, i, words);
      }
    }
  }

  lemma {:induction false} MarkWordsSuffixNonWord(s: string, i: nat, words: seq<string>)
    requires i < |s| && !IsWordChar(s[i])
    requires WordList(words)
    ensures MarkWords(s[i..], words) == MarkMatches(s, i, words)
    decreases |s| - i, 0
  {
    MarkWordsSuffix(s, i + 1, words);
    MarkWordsAtNonWordChar(s, i, words);
  }

  lemma {:induction false} MarkWordsSuffixWord(s: string, i: nat, words: seq<string>)
    requires i < |s| && IsWordChar(s[i])
    requires i == 0 || !IsWordChar(s[i - 1])
    requires WordList(words)
    ensures MarkWords(s[i..], words) == MarkMatches(s, i, words)
    decreases |s| - i, 0
  {
    var n := WordRunEnd(s, i);
    MarkWordsSuffix(s, i + n, words);
    MarkWordsAtWord(s, i, words);
  }

  /** The word run that starts at position `i` is not empty and ends at a word boundary. */
  lemma WordRunEnd(s: string, i: nat) returns (n: nat)
    requires i < |s| && IsWordChar(s[i])
    ensures n == WordLength(s[i..]) && 1 <= n && i + n <= |s|
    ensures i + n == |s| || !IsWordChar(s[i + n])
  {
    var t := s[i..];
    n := WordLength(t);
    assert i + n == |s| || s[i + n] == t[n];
  }

  /** One step of `MarkWordsSuffix` at a character outside words. */
  lemma MarkWordsAtNonWordChar(s: string, i: nat, words: seq<string>)
    requires i < |s| && !IsWordChar(s[i])
    requires WordList(words)
    requires MarkWords(s[i + 1..], words) == MarkMatches(s, i + 1, words)
    ensures MarkWords(s[i..], words) == MarkMatches(s, i, words)
  {
    NoMatchAtNonWordChar(s, i, words);
    MarkMatchesUnfold(s, i, words);
    assert s[i..][1..] == s[i + 1..];
  }

  /** One step of `MarkWordsSuffix` at a word start. */
  lemma MarkWordsAtWord(s: string, i: nat, words: seq<string>)
    requires i < |s| && IsWordChar(s[i])
    requires i == 0 || !IsWordChar(s[i - 1])
    requires WordList(words)
    requires var n := WordLength(s[i..]);
      MarkWords(s[i + n..], words) == MarkMatches(s, i + n, words)
    ensures MarkWords(s[i..], words) == MarkMatches(s, i, words)
  {
    var t := s[i..];
    var n := WordLength(t);
    calc {
      MarkWords(t, words);
      { MarkWordsUnfold(t, words); }
      Marker(t[..n], words) + t[..n] + MarkWords(t[n..], words);
      { assert t[..n] == s[i..i + n] && t[n..] == s[i + n..]; }
      Marker(s[i..i + n], words) + s[i..i + n] + MarkWords(s[i + n..], words);
      Marker(s[i..i + n], words) + s[i..i + n] + MarkMatches(s, i + n, words);
      { MarkMatchesAtWord(s, i, words); }
      MarkMatches(s, i, words);
    }
  }

  /** The word-by-word replacement does what the global regular-expression replacement does. */
  lemma MarkWordsIsRegex(s: string, words: seq<string>)
    requires WordList(words)
    ensures MarkWords(s, words) == MarkMatches(s, 0, words)
  {
    MarkWordsSuffix(s, 0, words);
    assert s[0..] == s;
  }

  /** Every position where `/\b(gt|gte|lt|lte|in)\b/` matches, and only those, gets one `$`. */
  lemma RewriteIsRegexReplace(s: string)
    ensures Rewrite(s) == MarkMatches(s, 0, Alternatives)
  {
    AlternativesAreWords();
    MarkWordsIsRegex(s, Alternatives);
  }

  /** A text that does not start with one of the alternatives as a whole word. */
  predicate StartsOutsideAlternatives(r: string, words: seq<string>) {
    r == [] || !IsWordChar(r[0]) || r[..WordLength(r)] !in words
  }

  /** A character outside words in front of such a text is kept by `UnmarkWords`. */
  lemma UnmarkWordsCons(c: char, r: string, words: seq<string>)
    requires !IsWordChar(c)
    requires StartsOutsideAlternatives(r, words)
    ensures UnmarkWords([c] + r, words) == [c] + UnmarkWords(r, words)
  {
    var t := [c] + r;
    assert t[1..] == r;
    if |r| >= 1 && IsWordChar(r[0]) {
      assert t[1..1 + WordLength(t[1..])] == r[..WordLength(r)];
    }
  }

  /** The replacement never starts with a whole word among the alternatives. */
  lemma MarkWordsStartsOutsideAlternatives(u: string, words: seq<string>)
    ensures StartsOutsideAlternatives(MarkWords(u, words), words)
  {
    if u != [] && IsWordChar(u[0]) {
      var m := LeadingWord(u);
      var w, t := u[..m], u[m..];
      SliceJoin(u, m);
      MarkWordsWordThen(w, t, words);
      if w !in words {
        var rest := MarkWords(t, words);
        MarkWordsStartsOutsideWord(t, words);
        WordLengthOfWord(w, rest);
        assert Marker(w, words) + w + rest == w + rest;
        ConcatParts(w, rest);
      }
    }
  }

  /** Removing the markers from a marked word and what follows it. */
  lemma UnmarkWordsWord(w: string, rest: string, words: seq<string>)
    requires w != [] && forall k :: 0 <= k < |w| ==> IsWordChar(w[k])
    requires StartsOutsideWord(rest)
    ensures UnmarkWords(Marker(w, words) + w + rest, words) == w + UnmarkWords(rest, words)
  {
    var n := |w|;
    WordLengthOfWord(w, rest);
    ConcatParts(w, rest);
    if w in words {
      var t := "$" + w + rest;
      assert t[1..] == w + rest;
      assert t[1..][..n] == w;
      assert t[1..1 + WordLength(t[1..])] == w;
    } else {
      assert Marker(w, words) + w + rest == w + rest;
    }
  }

  /** Removing the inserted markers gives back the original text. */
  lemma {:induction false} UnmarkMarkWords(s: string, words: seq<string>)
    ensures UnmarkWords(MarkWords(s, words), words) == s
    decreases |s|
  {
    if s != [] {
      if !IsWordChar(s[0]) {
        UnmarkMarkWords(s[1..], words);
        UnmarkMarkNonWord(s[0], s[1..], words);
        HeadTail(s);
      } else {
        var n := LeadingWord(s);
        UnmarkMarkWords(s[n..], words);
        UnmarkMarkWord(s[..n], s[n..], words);
        SliceJoin(s, n);
      }
    }
  }

  /** A text that starts with a word character splits into its leading word and a rest that starts outside words. */
  lemma LeadingWord(s: string) returns (n: nat)
    requires s != [] && IsWordChar(s[0])
    ensures n == WordLength(s) && 1 <= n <= |s|
    ensures forall k :: 0 <= k < |s[..n]| ==> IsWordChar(s[..n][k])
    ensures StartsOutsideWord(s[n..])
  {
    n := WordLength(s);
    WordRunChars(s);
    assert n == |s| || s[n..][0] == s[n];
  }

  /** One step of `UnmarkMarkWords` at a character outside words. */
  lemma UnmarkMarkNonWord(c: char, t: string, words: seq<string>)
    requires !IsWordChar(c)
    requires UnmarkWords(MarkWords(t, words), words) == t
    ensures UnmarkWords(MarkWords([c] + t, words), words) == [c] + t
  {
    MarkWordsCons(c, t, words);
    MarkWordsStartsOutsideAlternatives(t, words);
    UnmarkWordsCons(c, MarkWords(t, words), words);
  }

  /** One step of `UnmarkMarkWords` at a whole word. */
  lemma UnmarkMarkWord(w: string, t: string, words: seq<string>)
    requires w != [] && forall k :: 0 <= k < |w| ==> IsWordChar(w[k])
    requires StartsOutsideWord(t)
    requires UnmarkWords(MarkWords(t, words), words) == t
    ensures UnmarkWords(MarkWords(w + t, words), words) == w + t
  {
    MarkWordsWordThen(w, t, words);
    MarkWordsStartsOutsideWord(t, words);
    UnmarkWordsWord(w, MarkWords(t, words), words);
  }

  /** A whole word followed by text that starts outside words: its marker, the word, then the rest rewritten. */
  lemma MarkWordsWordThen(w: string, t: string, words: seq<string>)
    requires w != [] && forall k :: 0 <= k < |w| ==> IsWordChar(w[k])
    requires StartsOutsideWord(t)
    ensures MarkWords(w + t, words) == Marker(w, words) + w + MarkWords(t, words)
  {
    WordLengthOfWord(w, t);
    ConcatParts(w, t);
    MarkWordsUnfold(w + t, words);
  }

  /** Removing the `$` the rewrite inserted gives back the serialised filter. */
  lemma UnrewriteRewrite(s: string)
    ensures UnmarkWords(Rewrite(s), Alternatives) == s
  {
    UnmarkMarkWords(s, Alternatives);
  }

  /** The expression matches nowhere at or after position `i`. */
  predicate NoMatchFrom(s: string, i: nat, words: seq<string>) {
    forall k :: i <= k < |s| ==> !MatchAt(s, k, words)
  }

  /** A text with no match at or after position `i` is left unchanged from there. */
  lemma {:induction false} MarkMatchesUnchanged(s: string, i: nat, words: seq<string>)
    requires i <= |s|
    requires NoMatchFrom(s, i, words)
    ensures MarkMatches(s, i, words) == s[i..]
    decreases |s| - i
  {
    if i < |s| {
      MarkMatchesUnchanged(s, i + 1, words);
      MarkMatchesUnfold(s, i, words);
      assert s[i..] == [s[i]] + s[i + 1..];
    }
  }

  /** The number of positions at or after `i` where the expression matches. */
  function Matches(s: string, i: nat, words: seq<string>): nat
    decreases |s| - i
  {
    if i >= |s| then 0
    else (if MatchAt(s, i, words) then 1 else 0) + Matches(s, i + 1, words)
  }

  /** Each match adds one character: the result is longer exactly when something matched. */
  lemma {:induction false} MarkMatchesLength(s: string, i: nat, words: seq<string>)
    requires i <= |s|
    ensures |MarkMatches(s, i, words)| == |s| - i + Matches(s, i, words)
    ensures Matches(s, i, words) == 0 <==> NoMatchFrom(s, i, words)
    decreases |s| - i
  {
    if i < |s| {
      MarkMatchesLength(s, i + 1, words);
      MarkMatchesUnfold(s, i, words);
    }
  }

  /** The replacement changes a text if and only if one of the alternatives occurs in it as a whole word. */
  lemma MarkWordsUnchangedIff(s: string, words: seq<string>)
    requires WordList(words)
    ensures MarkWords(s, words) == s <==> NoMatchFrom(s, 0, words)
  {
    MarkWordsIsRegex(s, words);
    MarkMatchesLength(s, 0, words);
    if NoMatchFrom(s, 0, words) {
      MarkMatchesUnchanged(s, 0, words);
      assert s[0..] == s;
    }
  }

  /** The rewrite changes a text if and only if the text holds a whole operator word. */
  lemma RewriteUnchangedIff(s: string)
    ensures Rewrite(s) == s <==> forall k :: 0 <= k < |s| ==> !OperatorAt(s, k)
  {
    AlternativesAreWords();
    MarkWordsUnchangedIff(s, Alternatives);
    forall k | 0 <= k < |s|
      ensures OperatorAt(s, k) == MatchAt(s, k, Alternatives)
    {
    }
  }

  /** A character outside words is copied and the rest is rewritten. */
  lemma MarkWordsCons(c: char, r: string, words: seq<string>)
    requires !IsWordChar(c)
    ensures MarkWords([c] + r, words) == [c] + MarkWords(r, words)
  {
    ConcatParts([c], r);
  }

  lemma MarkWordsConcatNonWord(c: char, r: string, b: string, words: seq<string>)
    requires !IsWordChar(c)
    requires MarkWords(r + b, words) == MarkWords(r, words) + MarkWords(b, words)
    ensures MarkWords([c] + r + b, words) == MarkWords([c] + r, words) + MarkWords(b, words)
  {
    calc {
      MarkWords([c] + r + b, words);
      { Reassociate([c], r, b); }
      MarkWords([c] + (r + b), words);
      { MarkWordsCons(c, r + b, words); }
      [c] + MarkWords(r + b, words);
      { MarkWordsCons(c, r, words); }
      MarkWords([c] + r, words) + MarkWords(b, words);
    }
  }

  lemma MarkWordsConcatWord(w: string, t: string, b: string, words: seq<string>)
    requires w != [] && forall k :: 0 <= k < |w| ==> IsWordChar(w[k])
    requires StartsOutsideWord(t) && StartsOutsideWord(t + b)
    requires MarkWords(t + b, words) == MarkWords(t, words) + MarkWords(b, words)
    ensures MarkWords(w + t + b, words) == MarkWords(w + t, words) + MarkWords(b, words)
  {
    var m := Marker(w, words);
    calc {
      MarkWords(w + t + b, words);
      { Reassociate(w, t, b); }
      MarkWords(w + (t + b), words);
      { MarkWordsWordThen(w, t + b, words); }
      m + w + MarkWords(t + b, words);
      m + w + (MarkWords(t, words) + MarkWords(b, words));
      { Reassociate(m + w, MarkWords(t, words), MarkWords(b, words)); }
      m + w + MarkWords(t, words) + MarkWords(b, words);
      { MarkWordsWordThen(w, t, words); }
      MarkWords(w + t, words) + MarkWords(b, words);
    }
  }

  /** Two texts that meet at a word boundary are rewritten separately. */
  lemma {:induction false} MarkWordsConcat(a: string, b: string, words: seq<string>)
    requires a == [] || b == [] || !IsWordChar(a[|a| - 1]) || !IsWordChar(b[0])
    ensures MarkWords(a + b, words) == MarkWords(a, words) + MarkWords(b, words)
    decreases |a|
  {
    if a == [] {
      assert a + b == b;
    } else if !IsWordChar(a[0]) {
      MarkWordsConcat(a[1..], b, words);
      MarkWordsConcatNonWord(a[0], a[1..], b, words);
      HeadTail(a);
    } else {
      var n := LeadingWord(a);
      var w, t := a[..n], a[n..];
      if t != [] {
        assert t[|t| - 1] == a[|a| - 1] && (t + b)[0] == t[0];
      } else {
        assert t + b == b && w[|w| - 1] == a[|a| - 1];
      }
      MarkWordsConcat(t, b, words);
      MarkWordsConcatWord(w, t, b, words);
      SliceJoin(a, n);
    }
  }

  /** A whole word is written with its marker in front. */
  lemma MarkWordsOfWord(w: string, words: seq<string>)
    requires w != [] && forall k :: 0 <= k < |w| ==> IsWordChar(w[k])
    ensures MarkWords(w, words) == Marker(w, words) + w
  {
    WordLengthOfWord(w, []);
    assert w + [] == w;
    assert w[..|w|] == w && w[|w|..] == [];
  }

  /** Text without word characters is left as it is. */
  lemma {:induction false} MarkWordsOfNonWord(s: string, words: seq<string>)
    requires forall k :: 0 <= k < |s| ==> !IsWordChar(s[k])
    ensures MarkWords(s, words) == s
  {
    if s != [] {
      MarkWordsOfNonWord(s[1..], words);
    }
  }
}
