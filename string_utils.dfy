/**
 * The string helpers of the TypeScript refresher's utilities module: `capitalize`, `truncate`
 * and `StringUtils.reverse`, `isPalindrome` and `wordCount`. Characters are UTF-16 code units
 * with ASCII case mapping and ASCII whitespace.
 */
module StringUtils {
  import JsString
  import Seqs

  /** `str.charAt(0).toUpperCase() + str.slice(1)` */
  function Capitalize(s: string): (r: string)
    ensures |r| == |s|
    ensures s != [] ==> r[0] == JsString.UpperChar(s[0]) && r[1..] == s[1..]
  {
    if s == [] then "" else [JsString.UpperChar(s[0])] + s[1..]
  }

  /** `str.slice(0, end)`: a negative end counts back from the end of the string. */
  function SliceTo(s: string, end: int): (r: string)
    ensures end >= 0 ==> r == s[..if end < |s| then end else |s|]
    ensures end < 0 ==> r == s[..if |s| + end > 0 then |s| + end else 0]
  {
    if end >= 0 then (if end < |s| then s[..end] else s)
    else (if |s| + end > 0 then s[..|s| + end] else "")
  }

  /** `truncate(str, maxLength)` */
  function Truncate(s: string, maxLength: int): (r: string)
    ensures |s| <= maxLength ==> r == s
    ensures 0 <= maxLength < |s| ==> r == s[..maxLength] + "..."
    ensures maxLength >= 0 ==> |r| <= maxLength + 3
    ensures maxLength < 0 ==> r == SliceTo(s, maxLength) + "..." && (s != [] ==> |r| < |s| + 3)
  {
    if |s| <= maxLength then s else SliceTo(s, maxLength) + "..."
  }

  /** `str.split("").reverse().join("")` */
  function Reverse(s: string): (r: string)
    ensures |r| == |s| && forall i :: 0 <= i < |s| ==> r[i] == s[|s| - 1 - i]
  {
    if s == [] then [] else Reverse(s[1..]) + [s[0]]
  }

  /** Reversing twice gives back the input. */
  lemma ReverseInvolution(s: string)
    ensures Reverse(Reverse(s)) == s
  {
  }

  /** The characters `[a-z0-9]` that survive the palindrome clean-up. */
  predicate IsAlnumLower(c: char) {
    JsString.IsLowerAscii(c) || JsString.IsDigit(c)
  }

  /** `str.toLowerCase().replace(/[^a-z0-9]/g, "")` */
  function Cleaned(s: string): (r: string)
    ensures forall i :: 0 <= i < |r| ==> IsAlnumLower(r[i])
  {
    Seqs.Filter(JsString.Lower(s), IsAlnumLower)
  }

  /** `isPalindrome`: the cleaned text reads the same both ways. */
  function IsPalindrome(s: string): (r: bool)
    ensures r <==> forall i :: 0 <= i < |Cleaned(s)| ==> Cleaned(s)[i] == Cleaned(s)[|Cleaned(s)| - 1 - i]
  {
    var c := Cleaned(s);
    ReversedIff(c);
    c == Reverse(c)
  }

  /** A text equals its reverse exactly when it reads the same from both ends. */
  lemma ReversedIff(c: string)
    ensures c == Reverse(c) <==> forall i :: 0 <= i < |c| ==> c[i] == c[|c| - 1 - i]
  {
    if forall i :: 0 <= i < |c| ==> c[i] == c[|c| - 1 - i] {
      assert forall i :: 0 <= i < |c| ==> Reverse(c)[i] == c[i];
    }
  }

  /** Case and punctuation do not matter: the text and its lower-cased form agree. */
  lemma PalindromeIgnoresCase(s: string)
    ensures IsPalindrome(JsString.Lower(s)) == IsPalindrome(s)
  {
    JsString.LowerIdempotent(s);
  }

  /** A cleaned text that is already a palindrome stays one when reversed. */
  lemma PalindromeOfReverse(s: string)
    requires forall i :: 0 <= i < |s| ==> IsAlnumLower(s[i])
    ensures IsPalindrome(Reverse(s)) == IsPalindrome(s)
  {
    CleanedOfClean(s);
    CleanedOfClean(Reverse(s));
    ReverseInvolution(s);
  }

  /** Text made of `[a-z0-9]` only is left as it is by the clean-up. */
  lemma CleanedOfClean(s: string)
    requires forall i :: 0 <= i < |s| ==> IsAlnumLower(s[i])
    ensures Cleaned(s) == s
  {
    assert JsString.Lower(s) == s;
    Seqs.FilterAll(s, IsAlnumLower);
  }

  /** "racecar" is a palindrome. */
  lemma Racecar(s: string)
    requires s == "racecar"
    ensures IsPalindrome(s)
  {
    RacecarIsClean(s);
    CleanedOfClean(s);
    RacecarIsSymmetric(s);
  }

  lemma RacecarIsClean(s: string)
    requires s == "racecar"
    ensures forall i :: 0 <= i < |s| ==> IsAlnumLower(s[i])
  {
  }

  lemma RacecarIsSymmetric(s: string)
    requires s == "racecar"
    ensures forall i :: 0 <= i < |s| ==> s[i] == s[|s| - 1 - i]
  {
  }

  /** `str.split(/\s+/)`: the pieces between maximal runs of whitespace, with an empty piece before a leading run and after a trailing one. */
  function SplitWs(t: string): (r: seq<string>)
    ensures |r| >= 1
    ensures forall i, j :: 0 <= i < |r| && 0 <= j < |r[i]| ==> !JsString.IsWhitespace(r[i][j])
    decreases |t|
  {
    if t == [] then [""]
    else if JsString.IsWhitespace(t[0]) then [""] + SplitWs(JsString.TrimStart(t))
    else
      var rest := SplitWs(t[1..]);
      [[t[0]] + rest[0]] + rest[1..]
  }

  /** `wordCount` */
  function WordCount(s: string): (n: nat)
    ensures n >= 1
  {
    |SplitWs(JsString.Trim(s))|
  }

  /** Index i of t starts a whitespace-separated token: a non-whitespace character at the start or after whitespace. */
  predicate StartsToken(t: string, i: int)
    requires 0 <= i < |t|
  {
    !JsString.IsWhitespace(t[i]) && (i == 0 || JsString.IsWhitespace(t[i - 1]))
  }

  /** The number of indices from k on that start a token. */
  function StartsFrom(t: string, k: nat): nat
    decreases |t| - k
  {
    if k >= |t| then 0 else (if StartsToken(t, k) then 1 else 0) + StartsFrom(t, k + 1)
  }

  /** The number of whitespace-separated tokens of t. */
  function TokenCount(t: string): nat {
    StartsFrom(t, 0)
  }

  /** For a non-blank string, `wordCount` is the number of its whitespace-separated tokens. */
  lemma WordCountIsTokenCount(s: string)
    requires JsString.Trim(s) != []
    ensures WordCount(s) == TokenCount(s)
  {
    var w, tail := TrimParts(s);
    PaddedTokens(w, JsString.Trim(s), tail);
  }

  /** A string is its trimmed text between a leading and a trailing run of whitespace. */
  lemma TrimParts(s: string) returns (w: string, tail: string)
    ensures s == w + (JsString.Trim(s) + tail)
    ensures forall i :: 0 <= i < |w| ==> JsString.IsWhitespace(w[i])
    ensures forall i :: 0 <= i < |tail| ==> JsString.IsWhitespace(tail[i])
  {
    var r := JsString.Trim(s);
    var p := |s| - |JsString.TrimStart(s)|;
    var q := p + |r|;
    w, tail := s[..p], s[q..];
    SliceThree(s, p, q);
    forall i | 0 <= i < |w| ensures JsString.IsWhitespace(w[i]) {
      assert w[i] == s[i];
    }
    forall i | 0 <= i < |tail| ensures JsString.IsWhitespace(tail[i]) {
      assert tail[i] == s[q + i];
    }
  }

  lemma SliceThree(s: string, p: nat, q: nat)
    requires p <= q <= |s|
    ensures s == s[..p] + (s[p..q] + s[q..])
  {
    assert s[p..] == s[p..q] + s[q..];
  }

  /** Whitespace on both sides of a text that starts and ends with a word adds no token. */
  lemma PaddedTokens(w: string, r: string, tail: string)
    requires forall i :: 0 <= i < |w| ==> JsString.IsWhitespace(w[i])
    requires forall i :: 0 <= i < |tail| ==> JsString.IsWhitespace(tail[i])
    requires r != [] && !JsString.IsWhitespace(r[0]) && !JsString.IsWhitespace(r[|r| - 1])
    ensures TokenCount(w + (r + tail)) == |SplitWs(r)|
  {
    SplitCount(r);
    TokensAfterWhitespace(w, r + tail);
    StartsBeforeWhitespace(r, tail, 0);
  }

  /**
   * The split of a string that does not end in whitespace has one piece per token, and one more,
   * empty, piece when the string is empty or starts with whitespace.
   */
  lemma {:induction false} SplitCount(t: string)
    requires t == [] || !JsString.IsWhitespace(t[|t| - 1])
    ensures |SplitWs(t)| == TokenCount(t) + (if t == [] || JsString.IsWhitespace(t[0]) then 1 else 0)
    decreases |t|
  {
    if t == [] {
    } else if JsString.IsWhitespace(t[0]) {
      var u := JsString.TrimStart(t);
      var w := t[..|t| - |u|];
      assert u != [] && u[|u| - 1] == t[|t| - 1];
      SplitCount(u);
      assert t == w + u;
      TokensAfterWhitespace(w, u);
    } else {
      var r := t[1..];
      assert r == [] || r[|r| - 1] == t[|t| - 1];
      SplitCount(r);
      LeadingWordCount(t);
    }
  }

  /** The step of SplitCount for a string that starts with a word character. */
  lemma LeadingWordCount(t: string)
    requires t != [] && !JsString.IsWhitespace(t[0])
    requires |SplitWs(t[1..])| == TokenCount(t[1..]) + (if t[1..] == [] || JsString.IsWhitespace(t[1..][0]) then 1 else 0)
    ensures |SplitWs(t)| == TokenCount(t)
  {
    var r := t[1..];
    assert |SplitWs(t)| == |SplitWs(r)|;
    assert StartsToken(t, 0);
    assert TokenCount(t) == 1 + StartsFrom(t, 1);
    StartsShift(t, 1, 2);
    if |t| > 1 {
      assert !StartsToken(t, 1);
      assert StartsFrom(t, 1) == StartsFrom(t, 2);
      assert r[0] == t[1];
      assert StartsToken(r, 0) == !JsString.IsWhitespace(r[0]);
      assert TokenCount(r) == (if StartsToken(r, 0) then 1 else 0) + StartsFrom(r, 1);
    }
  }

  /** Counting from k >= j on, the tokens starts of t are those of t[j..] from k - j on. */
  lemma {:induction false} StartsShift(t: string, j: nat, k: nat)
    requires j < k && j <= |t|
    ensures StartsFrom(t, k) == StartsFrom(t[j..], k - j)
    decreases |t| - k
  {
    if k < |t| {
      assert t[j..][k - j] == t[k] && t[j..][k - j - 1] == t[k - 1];
      assert StartsToken(t, k) == StartsToken(t[j..], k - j);
      StartsShift(t, j, k + 1);
    }
  }

  /** A run of whitespace holds no token start. */
  lemma {:induction false} StartsSkipWhitespace(t: string, k: nat, m: nat)
    requires k <= m <= |t|
    requires forall i :: k <= i < m ==> JsString.IsWhitespace(t[i])
    ensures StartsFrom(t, k) == StartsFrom(t, m)
    decreases m - k
  {
    if k < m {
      StartsSkipWhitespace(t, k + 1, m);
    }
  }

  /** Whitespace after a string adds no token. */
  lemma {:induction false} StartsBeforeWhitespace(x: string, w: string, k: nat)
    requires k <= |x|
    requires forall i :: 0 <= i < |w| ==> JsString.IsWhitespace(w[i])
    ensures StartsFrom(x + w, k) == StartsFrom(x, k)
    decreases |x| - k
  {
    var t := x + w;
    if k == |x| {
      StartsSkipWhitespace(t, k, |t|);
    } else {
      assert t[k] == x[k] && (k == 0 || t[k - 1] == x[k - 1]);
      assert StartsToken(t, k) == StartsToken(x, k);
      StartsBeforeWhitespace(x, w, k + 1);
    }
  }

  /** Whitespace before a string adds no token either. */
  lemma TokensAfterWhitespace(w: string, x: string)
    requires forall i :: 0 <= i < |w| ==> JsString.IsWhitespace(w[i])
    ensures TokenCount(w + x) == TokenCount(x)
  {
    var t := w + x;
    if w == [] {
      assert t == x;
    } else {
      StartsSkipWhitespace(t, 0, |w|);
      if x != [] {
        assert t[|w|] == x[0] && t[|w| - 1] == w[|w| - 1];
        assert StartsToken(t, |w|) == StartsToken(x, 0);
        StartsShift(t, |w|, |w| + 1);
        assert t[|w|..] == x;
      }
    }
  }

  /** The pieces joined without separators. */
  function Concat(pieces: seq<string>): string {
    if pieces == [] then "" else pieces[0] + Concat(pieces[1..])
  }

  /** The characters of t that are not whitespace, in order. */
  function NonWhitespace(t: string): (r: string)
    ensures |r| <= |t|
  {
    if t == [] then ""
    else (if JsString.IsWhitespace(t[0]) then "" else [t[0]]) + NonWhitespace(t[1..])
  }

  /** The pieces of the split hold exactly the non-whitespace characters, in order and nothing else. */
  lemma {:induction false} SplitKeepsText(t: string)
    ensures Concat(SplitWs(t)) == NonWhitespace(t)
    decreases |t|
  {
    if t == [] {
    } else if JsString.IsWhitespace(t[0]) {
      var u := JsString.TrimStart(t);
      SplitKeepsText(u);
      TrimStartKeepsText(t);
      assert ([""] + SplitWs(u))[1..] == SplitWs(u);
    } else {
      SplitKeepsText(t[1..]);
      LeadingWordText(t);
    }
  }

  /** The step of SplitKeepsText for a string that starts with a word character. */
  lemma LeadingWordText(t: string)
    requires t != [] && !JsString.IsWhitespace(t[0])
    requires Concat(SplitWs(t[1..])) == NonWhitespace(t[1..])
    ensures Concat(SplitWs(t)) == NonWhitespace(t)
  {
    var rest := SplitWs(t[1..]);
    ConsText(t[0], rest, NonWhitespace(t[1..]));
    assert NonWhitespace(t) == [t[0]] + NonWhitespace(t[1..]);
  }

  /** Putting a character in front of the first piece puts it in front of the joined text. */
  lemma ConsText(c: char, rest: seq<string>, text: string)
    requires rest != [] && Concat(rest) == text
    ensures Concat([[c] + rest[0]] + rest[1..]) == [c] + text
  {
    var first := [c] + rest[0];
    var pieces := [first] + rest[1..];
    assert pieces[0] == first && pieces[1..] == rest[1..];
    assert Concat(pieces) == first + Concat(rest[1..]);
  }

  lemma {:induction false} TrimStartKeepsText(t: string)
    ensures NonWhitespace(JsString.TrimStart(t)) == NonWhitespace(t)
    decreases |t|
  {
    if t != [] && JsString.IsWhitespace(t[0]) {
      TrimStartKeepsText(t[1..]);
    }
  }

  /** An empty or all-space string still counts one word, the empty piece. */
  lemma BlankCountsOne(s: string)
    requires forall i :: 0 <= i < |s| ==> JsString.IsWhitespace(s[i])
    ensures WordCount(s) == 1
  {
    JsString.TrimEmptyIff(s);
  }

  /** Without whitespace at the end, no piece after the first is empty; without it at the start, neither is the first. */
  lemma {:induction false} PiecesNonEmpty(t: string)
    requires t == [] || !JsString.IsWhitespace(t[|t| - 1])
    ensures forall i :: 1 <= i < |SplitWs(t)| ==> SplitWs(t)[i] != ""
    ensures t != [] && !JsString.IsWhitespace(t[0]) ==> SplitWs(t)[0] != ""
    decreases |t|
  {
    if t != [] {
      if JsString.IsWhitespace(t[0]) {
        var u := JsString.TrimStart(t);
        assert u != [] && u[|u| - 1] == t[|t| - 1];
        PiecesNonEmpty(u);
      } else {
        var rest := t[1..];
        assert rest == [] || rest[|rest| - 1] == t[|t| - 1];
        PiecesNonEmpty(rest);
      }
    }
  }

  /** After trimming, every counted word of a non-blank string is a real word: non-empty and without whitespace. */
  lemma WordsAreWords(s: string)
    requires JsString.Trim(s) != []
    ensures forall i :: 0 <= i < |SplitWs(JsString.Trim(s))| ==> SplitWs(JsString.Trim(s))[i] != ""
  {
    PiecesNonEmpty(JsString.Trim(s));
  }
}
