/** The few Python string operations the pipeline relies on: `str.lower`,
    `str.split()` on whitespace, `str.split(sep)`, `sep.join` and the
    substring test `needle in hay`. */
module Strings {

  /** The characters Python's `str.split()` treats as whitespace: those for
      which `str.isspace()` holds. */
  predicate IsSpace(c: char)
  {
    || c == ' ' || '\t' <= c <= '\r' || '\U{001C}' <= c <= '\U{001F}'
    || c == '\U{0085}' || c == '\U{00A0}' || c == '\U{1680}'
    || '\U{2000}' <= c <= '\U{200A}' || c == '\U{2028}' || c == '\U{2029}'
    || c == '\U{202F}' || c == '\U{205F}' || c == '\U{3000}'
  }

  function LowerChar(c: char): char
  {
    if 'A' <= c <= 'Z' then (c as int - 'A' as int + 'a' as int) as char else c
  }

  /** `s.lower()`, restricted to ASCII letters. */
  function Lower(s: string): (r: string)
    ensures |r| == |s|
    ensures forall i :: 0 <= i < |s| ==> r[i] == LowerChar(s[i])
  {
    seq(|s|, i requires 0 <= i < |s| => LowerChar(s[i]))
  }

  /** Python's `needle in hay` for strings. */
  predicate Contains(hay: string, needle: string)
  {
    exists i :: 0 <= i <= |hay| - |needle| && OccursAt(hay, needle, i)
  }

  predicate OccursAt(hay: string, needle: string, i: int)
    requires 0 <= i <= |hay| - |needle|
  {
    hay[i..i + |needle|] == needle
  }

  // ---------------------------------------------------------------------------
  // `s.split()`: maximal runs of non-whitespace characters

  /** Splitting the rest `s` of a string while `word` is the run read so far. */
  function TokensFrom(s: string, word: string): seq<string>
  {
    if s == [] then
      (if word == [] then [] else [word])
    else if IsSpace(s[0]) then
      (if word == [] then [] else [word]) + TokensFrom(s[1..], [])
    else
      TokensFrom(s[1..], word + [s[0]])
  }

  /** `s.split()` with no argument. */
  function Tokens(s: string): seq<string>
  {
    TokensFrom(s, [])
  }

  /** The characters of `s` that are not whitespace, in order. */
  function NonSpace(s: string): string
  {
    if s == [] then [] else (if IsSpace(s[0]) then [] else [s[0]]) + NonSpace(s[1..])
  }

  function Concat(parts: seq<string>): string
  {
    if parts == [] then [] else parts[0] + Concat(parts[1..])
  }

  predicate SpaceFree(w: string)
  {
    forall i :: 0 <= i < |w| ==> !IsSpace(w[i])
  }

  /** The tokens are non-empty and hold no whitespace. */
  lemma {:induction false} TokensFromClean(s: string, word: string)
    requires SpaceFree(word)
    ensures forall t :: t in TokensFrom(s, word) ==> t != [] && SpaceFree(t)
  {
    if s != [] {
      if IsSpace(s[0]) {
        TokensFromClean(s[1..], []);
        assert TokensFrom(s, word) == (if word == [] then [] else [word]) + TokensFrom(s[1..], []);
      } else {
        var word' := word + [s[0]];
        assert SpaceFree(word');
        TokensFromClean(s[1..], word');
      }
    }
  }

  /** Concatenated, the tokens give the pending word and then the
      non-whitespace characters. */
  lemma {:induction false} TokensFromConcat(s: string, word: string)
    ensures Concat(TokensFrom(s, word)) == word + NonSpace(s)
  {
    if s == [] {
      TokensAtEnd(word);
    } else if IsSpace(s[0]) {
      TokensFromConcat(s[1..], []);
      TokensAtSpace(s, word);
    } else {
      var word', tail := word + [s[0]], NonSpace(s[1..]);
      TokensInWord(s, word);
      TokensFromConcat(s[1..], word');
      assert word' + tail == word + ([s[0]] + tail);
    }
  }

  lemma TokensAtEnd(word: string)
    ensures Concat(TokensFrom([], word)) == word + NonSpace([])
  {
    if word != [] {
      assert Concat([word]) == word + Concat([]);
    }
  }

  lemma TokensAtSpace(s: string, word: string)
    requires s != [] && IsSpace(s[0])
    requires Concat(TokensFrom(s[1..], [])) == NonSpace(s[1..])
    ensures Concat(TokensFrom(s, word)) == word + NonSpace(s)
  {
    var rest := TokensFrom(s[1..], []);
    assert NonSpace(s) == NonSpace(s[1..]) by {
      assert [] + NonSpace(s[1..]) == NonSpace(s[1..]);
    }
    if word == [] {
      assert TokensFrom(s, word) == [] + rest == rest;
      assert word + NonSpace(s) == NonSpace(s);
    } else {
      var all := [word] + rest;
      assert TokensFrom(s, word) == all;
      assert all[0] == word && all[1..] == rest;
    }
  }

  /** Inside a word, the next character joins the pending word. */
  lemma TokensInWord(s: string, word: string)
    requires s != [] && !IsSpace(s[0])
    ensures TokensFrom(s, word) == TokensFrom(s[1..], word + [s[0]])
    ensures NonSpace(s) == [s[0]] + NonSpace(s[1..])
  {
  }

  /** `s.split()` yields non-empty, whitespace-free tokens that, joined back,
      give exactly the non-whitespace characters of `s`. */
  lemma TokensSound(s: string)
    ensures forall t :: t in Tokens(s) ==> t != [] && SpaceFree(t)
    ensures Concat(Tokens(s)) == NonSpace(s)
  {
    TokensFromClean(s, []);
    TokensFromConcat(s, []);
  }

  // ---------------------------------------------------------------------------
  // `s.split(sep)` and `sep.join(parts)`

  /** `s.split(sep)`: always at least one part, possibly empty ones. */
  function SplitOn(s: string, sep: char): (parts: seq<string>)
    ensures |parts| >= 1
  {
    if s == [] then [[]]
    else if s[0] == sep then [[]] + SplitOn(s[1..], sep)
    else var rest := SplitOn(s[1..], sep); [[s[0]] + rest[0]] + rest[1..]
  }

  /** `sep.join(parts)`. */
  function Join(parts: seq<string>, sep: char): string
  {
    if parts == [] then []
    else if |parts| == 1 then parts[0]
    else parts[0] + [sep] + Join(parts[1..], sep)
  }

  predicate Free(w: string, sep: char)
  {
    forall i :: 0 <= i < |w| ==> w[i] != sep
  }

  lemma {:induction false} SplitOnParts(s: string, sep: char)
    ensures forall k :: 0 <= k < |SplitOn(s, sep)| ==> Free(SplitOn(s, sep)[k], sep)
  {
    if s != [] {
      SplitOnParts(s[1..], sep);
    }
  }

  /** Joining the parts of a split with the same separator gives the string back. */
  lemma {:induction false} JoinSplitOn(s: string, sep: char)
    ensures Join(SplitOn(s, sep), sep) == s
  {
    if s != [] {
      var rest := SplitOn(s[1..], sep);
      JoinSplitOn(s[1..], sep);
      if s[0] == sep {
        assert ([[]] + rest)[1..] == rest;
      } else {
        var parts := [[s[0]] + rest[0]] + rest[1..];
        if |rest| == 1 {
          assert parts == [[s[0]] + rest[0]];
        } else {
          assert parts[1..] == rest[1..];
          assert Join(rest, sep) == rest[0] + [sep] + Join(rest[1..], sep);
        }
      }
    }
  }

  /** Splitting a join of separator-free parts gives the parts back. */
  lemma {:induction false} SplitOnJoin(parts: seq<string>, sep: char)
    requires |parts| >= 1
    requires forall k :: 0 <= k < |parts| ==> Free(parts[k], sep)
    ensures SplitOn(Join(parts, sep), sep) == parts
  {
    if |parts| == 1 {
      SplitOnFree(parts[0], sep);
    } else {
      SplitOnJoin(parts[1..], sep);
      SplitOnConcat(parts[0], Join(parts[1..], sep), sep);
      SplitOnFree(parts[0], sep);
      assert [parts[0]] + parts[1..] == parts;
    }
  }

  lemma {:induction false} SplitOnFree(w: string, sep: char)
    requires Free(w, sep)
    ensures SplitOn(w, sep) == [w]
  {
    if w != [] {
      SplitOnFree(w[1..], sep);
      assert [w[0]] + w[1..] == w;
    }
  }

  /** Splitting around one separator splits each side independently. */
  lemma {:induction false} SplitOnConcat(a: string, b: string, sep: char)
    ensures SplitOn(a + [sep] + b, sep) == SplitOn(a, sep) + SplitOn(b, sep)
  {
    if a == [] {
      assert a + [sep] + b == [sep] + b;
      assert ([sep] + b)[1..] == b;
    } else {
      assert (a + [sep] + b)[0] == a[0];
      assert (a + [sep] + b)[1..] == a[1..] + [sep] + b;
      SplitOnConcat(a[1..], b, sep);
    }
  }

  lemma FreeConcat(a: string, b: string, sep: char)
    requires Free(a, sep) && Free(b, sep)
    ensures Free(a + b, sep)
  {
    forall i | 0 <= i < |a + b|
      ensures (a + b)[i] != sep
    {
      if i >= |a| {
        assert (a + b)[i] == b[i - |a|];
      }
    }
  }

  /** The last part of a split is what follows the last separator. */
  lemma LastPartAfterSeparator(prefix: string, w: string, sep: char)
    requires Free(w, sep)
    ensures SplitOn(prefix + [sep] + w, sep)[|SplitOn(prefix + [sep] + w, sep)| - 1] == w
  {
    SplitOnConcat(prefix, w, sep);
    SplitOnFree(w, sep);
  }
}
