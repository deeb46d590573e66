/**
 * String helpers with JavaScript's meaning: `String.prototype.split` on a single
 * separator character, `Array.prototype.join`, and the regular-expression class
 * of word characters `[A-Za-z0-9_]` that `\b` is defined by.
 */
module Text {

  /** Concatenation is associative; stated once so that callers need not prove it by extensionality. */
  lemma Reassociate<T>(a: seq<T>, b: seq<T>, c: seq<T>)
    ensures a + b + c == a + (b + c)
  {
  }

  /** A sequence is its first `n` elements followed by the rest. */
  lemma SliceJoin<T>(s: seq<T>, n: nat)
    requires n <= |s|
    ensures s[..n] + s[n..] == s
  {
  }

  /** A non-empty sequence is its first element followed by the rest. */
  lemma HeadTail<T>(s: seq<T>)
    requires s != []
    ensures [s[0]] + s[1..] == s
  {
  }

  /** A slice of at least one element is that element followed by the rest of the slice. */
  lemma SliceCons<T>(s: seq<T>, j: nat, e: nat)
    requires j < e <= |s|
    ensures [s[j]] + s[j + 1..e] == s[j..e]
  {
  }

  /** Taking a concatenation apart at the seam gives back its two parts. */
  lemma ConcatParts<T>(a: seq<T>, b: seq<T>)
    ensures (a + b)[..|a|] == a && (a + b)[|a|..] == b
  {
  }

  /** Dropping the first element of a concatenation whose left part is not empty. */
  lemma TailOfConcat<T>(a: seq<T>, b: seq<T>)
    requires a != []
    ensures (a + b)[1..] == a[1..] + b
  {
  }

  /** A character of the class `\w`. */
  predicate IsWordChar(c: char) {
    ('A' <= c <= 'Z') || ('a' <= c <= 'z') || ('0' <= c <= '9') || c == '_'
  }

  /** `s.split(sep)`: the pieces between separators, always at least one (`"".split(",") == [""]`). */
  function Split(s: string, sep: char): (parts: seq<string>)
    ensures |parts| >= 1
    ensures forall i :: 0 <= i < |parts| ==> sep !in parts[i]
    ensures forall i, c :: 0 <= i < |parts| && c in parts[i] ==> c in s
    ensures |parts| == 1 <==> sep !in s
  {
    if s == [] then [""]
    else
      var rest := Split(s[1..], sep);
      assert forall c :: c in s[1..] ==> c in s;
      if s[0] == sep then [""] + rest
      else [[s[0]] + rest[0]] + rest[1..]
  }

  /** `parts.join(sep)`. */
  function Join(parts: seq<string>, sep: char): string {
    if parts == [] then ""
    else if |parts| == 1 then parts[0]
    else parts[0] + [sep] + Join(parts[1..], sep)
  }

  /** Every occurrence of `from` replaced by `to`, every other character kept. */
  function ReplaceChar(s: string, from: char, to: char): (r: string)
    ensures |r| == |s|
    ensures forall i :: 0 <= i < |s| ==> r[i] == (if s[i] == from then to else s[i])
  {
    seq(|s|, i requires 0 <= i < |s| => if s[i] == from then to else s[i])
  }

  /** Splitting on one separator and joining with another replaces the separator in place. */
  lemma {:induction false} JoinSplit(s: string, a: char, b: char)
    ensures Join(Split(s, a), b) == ReplaceChar(s, a, b)
  {
    if s != [] {
      JoinSplit(s[1..], a, b);
      var rest := Split(s[1..], a);
      var head := if s[0] == a then b else s[0];
      calc {
        Join(Split(s, a), b);
        { JoinAfterHead(s[0], a, rest, b); }
        [head] + Join(rest, b);
        [head] + ReplaceChar(s[1..], a, b);
        { ReplaceCharCons(s, a, b); }
        ReplaceChar(s, a, b);
      }
    }
  }

  /** One step of `JoinSplit`: the first character of the text leads the joined result. */
  lemma JoinAfterHead(c: char, a: char, rest: seq<string>, b: char)
    requires |rest| >= 1
    ensures Join(if c == a then [""] + rest else [[c] + rest[0]] + rest[1..], b)
         == [if c == a then b else c] + Join(rest, b)
  {
    if c == a {
      assert ([""] + rest)[1..] == rest;
    } else if |rest| > 1 {
      assert ([[c] + rest[0]] + rest[1..])[1..] == rest[1..];
    }
  }

  lemma ReplaceCharCons(s: string, a: char, b: char)
    requires s != []
    ensures ReplaceChar(s, a, b) == [if s[0] == a then b else s[0]] + ReplaceChar(s[1..], a, b)
  {
  }

  /** Splitting a text that holds no separator gives the text back as the only piece. */
  lemma {:induction false} SplitNoSeparator(w: string, sep: char)
    requires sep !in w
    ensures Split(w, sep) == [w]
  {
    if w != [] {
      SplitNoSeparator(w[1..], sep);
      assert [w[0]] + w[1..] == w;
    }
  }

  /** A separator right after a separator-free prefix ends the first piece there. */
  lemma {:induction false} SplitAfterPiece(w: string, sep: char, t: string)
    requires sep !in w
    ensures Split(w + [sep] + t, sep) == [w] + Split(t, sep)
  {
    if w == [] {
      assert w + [sep] + t == [sep] + t;
      assert ([sep] + t)[1..] == t;
    } else {
      SplitAfterPiece(w[1..], sep, t);
      assert (w + [sep] + t)[1..] == w[1..] + [sep] + t;
      assert [w[0]] + w[1..] == w;
    }
  }

  /** Joining pieces that hold no separator and splitting again gives the pieces back. */
  lemma {:induction false} SplitJoin(parts: seq<string>, sep: char)
    requires |parts| >= 1
    requires forall i :: 0 <= i < |parts| ==> sep !in parts[i]
    ensures Split(Join(parts, sep), sep) == parts
  {
    if |parts| == 1 {
      SplitNoSeparator(parts[0], sep);
    } else {
      SplitJoin(parts[1..], sep);
      SplitAfterPiece(parts[0], sep, Join(parts[1..], sep));
      assert [parts[0]] + parts[1..] == parts;
    }
  }
}
