/** Strings as the services use them: the code-point order behind `sorted`,
    the whitespace rules of `split` and `strip`, and substring tests. */
module Text {

  /** `a <= b` in the order Python sorts strings by. */
  predicate StrLe(a: string, b: string) {
    a == [] || (b != [] && (a[0] < b[0] || (a[0] == b[0] && StrLe(a[1..], b[1..]))))
  }

  lemma {:induction false} StrLeTotal(a: string, b: string)
    ensures StrLe(a, b) || StrLe(b, a)
  {
    if a != [] && b != [] && a[0] == b[0] {
      StrLeTotal(a[1..], b[1..]);
    }
  }

  lemma {:induction false} StrLeAntisymmetric(a: string, b: string)
    requires StrLe(a, b) && StrLe(b, a)
    ensures a == b
  {
    if a != [] && b != [] {
      StrLeAntisymmetric(a[1..], b[1..]);
      assert a == [a[0]] + a[1..] && b == [b[0]] + b[1..];
    }
  }

  lemma {:induction false} StrLeTransitive(a: string, b: string, c: string)
    requires StrLe(a, b) && StrLe(b, c)
    ensures StrLe(a, c)
  {
    if a != [] && a[0] == b[0] && b[0] == c[0] {
      StrLeTransitive(a[1..], b[1..], c[1..]);
    }
  }

  /** The characters `str.split()` and `str.strip()` treat as whitespace. */
  predicate IsSpace(c: char) {
    || '\U{09}' <= c <= '\U{0D}' || '\U{1C}' <= c <= '\U{20}' || c == '\U{85}' || c == '\U{A0}'
    || c == '\U{1680}' || '\U{2000}' <= c <= '\U{200A}' || c == '\U{2028}' || c == '\U{2029}'
    || c == '\U{202F}' || c == '\U{205F}' || c == '\U{3000}'
  }

  /** `value.split()`: the maximal whitespace-free runs; `word` is the run being read. */
  function Words(s: string, word: string): seq<string> {
    if s == [] then if word == [] then [] else [word]
    else if !IsSpace(s[0]) then Words(s[1..], word + [s[0]])
    else if word == [] then Words(s[1..], [])
    else [word] + Words(s[1..], [])
  }

  function Join(words: seq<string>): string {
    if words == [] then "" else if |words| == 1 then words[0] else words[0] + " " + Join(words[1..])
  }

  /** `" ".join(value.split())`. */
  function Normalize(s: string): string {
    Join(Words(s, []))
  }

  predicate OccursAt(part: string, whole: string, k: nat) {
    k + |part| <= |whole| && whole[k..k + |part|] == part
  }

  predicate Contains(part: string, whole: string) {
    exists k: nat | k <= |whole| :: OccursAt(part, whole, k)
  }

  function StripLeft(s: string): (r: string)
    ensures |r| <= |s|
    ensures r == [] || !IsSpace(r[0])
  {
    if s != [] && IsSpace(s[0]) then StripLeft(s[1..]) else s
  }

  function StripRight(s: string): (r: string)
    ensures |r| <= |s| && r <= s
    ensures r == [] || !IsSpace(r[|r| - 1])
  {
    if s != [] && IsSpace(s[|s| - 1]) then StripRight(s[..|s| - 1]) else s
  }

  /** `value.strip()`. */
  function Strip(s: string): (r: string)
    ensures |r| <= |s|
    ensures r == [] || (!IsSpace(r[0]) && !IsSpace(r[|r| - 1]))
  {
    StripRight(StripLeft(s))
  }

  // ----- what these functions mean

  /** The code-point order: a proper beginning comes first, and otherwise the first difference decides. */
  lemma {:induction false} StrLeMeaning(a: string, b: string)
    ensures StrLe(a, b) <==>
      a <= b || exists k :: 0 <= k < |a| && k < |b| && a[..k] == b[..k] && a[k] < b[k]
  {
    if a != [] && b != [] {
      if a[0] == b[0] {
        StrLeMeaning(a[1..], b[1..]);
        assert a <= b <==> a[1..] <= b[1..] by {
          assert a == [a[0]] + a[1..] && b == [b[0]] + b[1..];
        }
        if k :| 0 <= k < |a[1..]| && k < |b[1..]| && a[1..][..k] == b[1..][..k] && a[1..][k] < b[1..][k] {
          assert a[..k + 1] == [a[0]] + a[1..][..k] && b[..k + 1] == [b[0]] + b[1..][..k];
          assert a[k + 1] < b[k + 1];
        }
        if k :| 0 <= k < |a| && k < |b| && a[..k] == b[..k] && a[k] < b[k] {
          assert k > 0 && a[1..][..k - 1] == a[..k][1..] && b[1..][..k - 1] == b[..k][1..];
          assert a[1..][k - 1] < b[1..][k - 1];
        }
      } else {
        assert a[..0] == b[..0];
        assert forall k :: 0 < k <= |a| && k <= |b| ==> a[..k][0] != b[..k][0];
      }
    }
  }

  /** A part is contained when something before it and something after it make up the whole. */
  lemma ContainsMeaning(part: string, whole: string)
    ensures Contains(part, whole) <==> exists before: string, after: string :: whole == before + part + after
  {
    if Contains(part, whole) {
      var k: nat :| k <= |whole| && OccursAt(part, whole, k);
      assert whole == whole[..k] + part + whole[k + |part|..];
    }
    if before: string, after: string :| whole == before + part + after {
      assert OccursAt(part, whole, |before|);
    }
  }

  predicate AllSpace(s: string) {
    forall i :: 0 <= i < |s| ==> IsSpace(s[i])
  }

  predicate NoSpace(s: string) {
    forall i :: 0 <= i < |s| ==> !IsSpace(s[i])
  }

  /** The ASCII part of the whitespace: tab to carriage return, the four separators, and the blank. */
  lemma AsciiSpaces(c: char)
    requires c <= '\U{7F}'
    ensures IsSpace(c) <==> c in {'\t', '\n', '\U{0B}', '\U{0C}', '\r', '\U{1C}', '\U{1D}', '\U{1E}', '\U{1F}', ' '}
  {
  }

  lemma {:induction false} StripLeftMeaning(s: string) returns (n: nat)
    ensures n <= |s| && StripLeft(s) == s[n..] && AllSpace(s[..n])
  {
    n := 0;
    if s != [] && IsSpace(s[0]) {
      n := StripLeftMeaning(s[1..]);
      assert s[..n + 1] == [s[0]] + s[1..][..n];
      n := n + 1;
    }
  }

  lemma {:induction false} StripRightMeaning(s: string) returns (n: nat)
    ensures n <= |s| && StripRight(s) == s[..n] && AllSpace(s[n..])
  {
    n := |s|;
    if s != [] && IsSpace(s[|s| - 1]) {
      n := StripRightMeaning(s[..|s| - 1]);
      assert s[n..] == s[..|s| - 1][n..] + [s[|s| - 1]];
    }
  }

  /** Stripping removes the whitespace at both ends and nothing else. */
  lemma StripMeaning(s: string) returns (a: nat, b: nat)
    ensures a <= b <= |s| && Strip(s) == s[a..b] && AllSpace(s[..a]) && AllSpace(s[b..])
  {
    a := StripLeftMeaning(s);
    var n := StripRightMeaning(StripLeft(s));
    b := a + n;
    assert s[b..] == s[a..][n..];
  }

  /** A text strips to nothing exactly when it is all whitespace. */
  lemma BlankMeaning(s: string)
    ensures Strip(s) == "" <==> AllSpace(s)
  {
    var a, b := StripMeaning(s);
    assert s == s[..a] + s[a..b] + s[b..];
  }

  lemma {:induction false} WordsUpTo(s: string, word: string, rest: string)
    requires NoSpace(s)
    ensures Words(s + rest, word) == Words(rest, word + s)
  {
    if s == [] {
      assert s + rest == rest && word + s == word;
    } else {
      assert (s + rest)[1..] == s[1..] + rest;
      WordsUpTo(s[1..], word + [s[0]], rest);
      assert word + [s[0]] + s[1..] == word + s;
    }
  }

  /** A text without whitespace is one word. */
  lemma OneWord(s: string)
    requires NoSpace(s)
    ensures Words(s, []) == if s == [] then [] else [s]
  {
    WordsUpTo(s, [], []);
    assert s + [] == s && [] + s == s;
  }

  /** Whitespace separates: the words before it, then the words after it. */
  lemma {:induction false} WordsSplit(s: string, word: string, space: char, rest: string)
    requires IsSpace(space)
    ensures Words(s + [space] + rest, word) == Words(s, word) + Words(rest, [])
    decreases |s|
  {
    if s == [] {
      assert s + [space] + rest == [space] + rest && ([space] + rest)[1..] == rest;
      assert word == [] ==> Words(s, word) == [];
    } else {
      assert (s + [space] + rest)[1..] == s[1..] + [space] + rest;
      if !IsSpace(s[0]) {
        WordsSplit(s[1..], word + [s[0]], space, rest);
      } else {
        WordsSplit(s[1..], [], space, rest);
      }
    }
  }

  /** Words are not empty and have no whitespace in them. */
  lemma {:induction false} WordsClean(s: string, word: string)
    requires NoSpace(word)
    ensures forall i :: 0 <= i < |Words(s, word)| ==> Words(s, word)[i] != [] && NoSpace(Words(s, word)[i])
    decreases |s|
  {
    if s != [] {
      if !IsSpace(s[0]) {
        WordsClean(s[1..], word + [s[0]]);
      } else {
        WordsClean(s[1..], []);
      }
    }
  }

  lemma {:induction false} WordsOfJoin(words: seq<string>)
    requires forall i :: 0 <= i < |words| ==> words[i] != [] && NoSpace(words[i])
    ensures Words(Join(words), []) == words
  {
    if |words| == 1 {
      OneWord(words[0]);
    } else if words != [] {
      WordsOfJoin(words[1..]);
      WordsSplit(words[0], [], ' ', Join(words[1..]));
      OneWord(words[0]);
      assert words == [words[0]] + words[1..];
    }
  }

  /** Normalizing keeps the words of a text, so two texts normalize alike exactly when their words are the same. */
  lemma NormalizeKeepsWords(s: string, t: string)
    ensures Words(Normalize(s), []) == Words(s, [])
    ensures Normalize(s) == Normalize(t) <==> Words(s, []) == Words(t, [])
  {
    WordsClean(s, []);
    WordsOfJoin(Words(s, []));
    WordsClean(t, []);
    WordsOfJoin(Words(t, []));
  }

  /** One blank between words, and none at the ends. */
  lemma {:induction false} JoinMeaning(words: seq<string>, more: seq<string>)
    requires words != [] && more != []
    ensures Join(words + more) == Join(words) + " " + Join(more)
  {
    if |words| == 1 {
      assert (words + more)[1..] == more;
    } else {
      assert (words + more)[1..] == words[1..] + more;
      JoinMeaning(words[1..], more);
    }
  }
}
