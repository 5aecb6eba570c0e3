/**
 * The Python string built-ins the agent relies on, restricted to ASCII:
 * `str.lower`, `str.strip`, `str.split()` (no separator), `str.title`,
 * `sep.join(parts)` and the substring test `k in s`.
 */
module Text {

  /** `str.isspace()` on ASCII: space, tab, line feed, vertical tab, form feed,
      carriage return and the four separators 0x1C-0x1F. The regular-expression
      class `\s` on a `str` pattern matches the same ASCII characters. */
  predicate IsSpace(c: char) {
    c == ' ' || (9 <= c as int <= 13) || (28 <= c as int <= 31)
  }

  predicate IsUpper(c: char) { 'A' <= c <= 'Z' }

  predicate IsLower(c: char) { 'a' <= c <= 'z' }

  /** The cased characters of ASCII: the only ones `lower` and `title` change. */
  predicate IsLetter(c: char) { IsUpper(c) || IsLower(c) }

  /** A capital becomes its own small letter, 32 code points on; every other
      character is kept. */
  function LowerChar(c: char): (r: char)
    ensures !IsUpper(r) && (IsLetter(r) <==> IsLetter(c)) && IsSpace(r) == IsSpace(c)
    ensures IsUpper(c) ==> r as int == c as int + 32
    ensures !IsUpper(c) ==> r == c
  {
    if IsUpper(c) then (c as int + 32) as char else c
  }

  /** A small letter becomes its own capital, 32 code points back; every
      other character is kept. */
  function UpperChar(c: char): (r: char)
    ensures !IsLower(r) && (IsLetter(r) <==> IsLetter(c)) && IsSpace(r) == IsSpace(c)
    ensures IsLower(c) ==> r as int == c as int - 32
    ensures !IsLower(c) ==> r == c
  {
    if IsLower(c) then (c as int - 32) as char else c
  }

  /** `s.lower()`: each capital is replaced by its own small letter and
      every other character is left alone. */
  function Lower(s: string): (r: string)
    ensures |r| == |s|
    ensures forall i :: 0 <= i < |r| ==> !IsUpper(r[i])
    ensures forall i :: 0 <= i < |s| ==> r[i] == s[i] || (IsUpper(s[i]) && r[i] as int == s[i] as int + 32)
  {
    seq(|s|, i requires 0 <= i < |s| => LowerChar(s[i]))
  }

  /** `s.lstrip()` */
  function TrimStart(s: string): (r: string)
    ensures |r| <= |s| && r == s[|s| - |r|..]
    ensures forall i :: 0 <= i < |s| - |r| ==> IsSpace(s[i])
    ensures r != [] ==> !IsSpace(r[0])
  {
    if s != [] && IsSpace(s[0]) then TrimStart(s[1..]) else s
  }

  /** `s.rstrip()` */
  function TrimEnd(s: string): (r: string)
    ensures |r| <= |s| && r == s[..|r|]
    ensures forall i :: |r| <= i < |s| ==> IsSpace(s[i])
    ensures r != [] ==> !IsSpace(r[|r| - 1])
  {
    if s != [] && IsSpace(s[|s| - 1]) then TrimEnd(s[..|s| - 1]) else s
  }

  /** `s.strip()`: the slice of `s` from its first to its last non-whitespace
      character; everything cut away is whitespace. */
  function Strip(s: string): (r: string)
    ensures var a := |s| - |TrimStart(s)|;
      && a + |r| <= |s| && r == s[a..a + |r|]
      && (forall i :: 0 <= i < a ==> IsSpace(s[i]))
      && (forall i :: a + |r| <= i < |s| ==> IsSpace(s[i]))
    ensures r != [] ==> !IsSpace(r[0]) && !IsSpace(r[|r| - 1])
  {
    TrimEnd(TrimStart(s))
  }

  /** A string with no upper-case letter is its own lower-case form. */
  lemma LowerOfLower(s: string)
    requires forall i :: 0 <= i < |s| ==> !IsUpper(s[i])
    ensures Lower(s) == s
  {
  }

  /** A string without surrounding whitespace is its own stripped form. */
  lemma StripOfStripped(s: string)
    requires s != [] ==> !IsSpace(s[0]) && !IsSpace(s[|s| - 1])
    ensures Strip(s) == s
  {
  }

  /** A piece of `str.split()`'s result: non-empty and free of whitespace. */
  predicate IsWord(w: string) {
    w != [] && forall i :: 0 <= i < |w| ==> !IsSpace(w[i])
  }

  /** The longest prefix of `s` that holds no whitespace. */
  function LeadingWord(s: string): (r: string)
    ensures |r| <= |s| && r == s[..|r|]
    ensures forall i :: 0 <= i < |r| ==> !IsSpace(r[i])
    ensures |r| < |s| ==> IsSpace(s[|r|])
  {
    if s == [] || IsSpace(s[0]) then [] else [s[0]] + LeadingWord(s[1..])
  }

  /** `s.split()`: the maximal runs of non-whitespace characters, in order. */
  function Split(s: string): (r: seq<string>)
    ensures forall k :: 0 <= k < |r| ==> IsWord(r[k])
    decreases |s|
  {
    var t := TrimStart(s);
    if t == [] then []
    else
      var w := LeadingWord(t);
      [w] + Split(t[|w|..])
  }

  /** `sep.join(parts)`: every part occurs in the joined string. */
  function Join(parts: seq<string>, sep: string): (r: string)
    ensures forall k {:trigger Contains(r, parts[k])} :: 0 <= k < |parts| ==> Contains(r, parts[k])
  {
    if |parts| == 0 then ""
    else if |parts| == 1 then
      ContainsSelf(parts[0]);
      parts[0]
    else
      var rest := Join(parts[1..], sep);
      var r := parts[0] + sep + rest;
      assert SliceAt(r, parts[0], 0);
      forall k | 1 <= k < |parts|
        ensures Contains(r, parts[k])
      {
        assert parts[k] == parts[1..][k - 1];
        ContainsInSuffix(parts[0] + sep, rest, parts[k]);
      }
      r
  }

  /** `str.title()` with the flag Python carries along: whether the previous
      character was cased. A letter after a letter is lower-cased, any other
      letter upper-cased; every other character is kept and resets the flag. */
  function TitleFrom(s: string, afterLetter: bool): string {
    if s == [] then []
    else
      var c := s[0];
      var d := if !IsLetter(c) then c else if afterLetter then LowerChar(c) else UpperChar(c);
      [d] + TitleFrom(s[1..], IsLetter(c))
  }

  /** `s.title()`: character by character the rule TitledAt, so a letter is
      upper-cased exactly when it starts the string or follows a non-letter. */
  function Title(s: string): (r: string)
    ensures |r| == |s|
    ensures forall i :: 0 <= i < |s| ==> r[i] == TitledAt(s, i)
  {
    TitleFromLength(s, false);
    forall i | 0 <= i < |s|
      ensures TitleFrom(s, false)[i] == TitledAt(s, i)
    {
      TitleFromAt(s, false, i);
    }
    TitleFrom(s, false)
  }

  /** What `title` does to the character at position `i`, read from its left neighbour. */
  function TitledAt(s: string, i: nat): char
    requires i < |s|
  {
    if !IsLetter(s[i]) then s[i]
    else if i > 0 && IsLetter(s[i - 1]) then LowerChar(s[i])
    else UpperChar(s[i])
  }

  /** `k` occurs in `s` starting at position `i`. */
  predicate SliceAt(s: string, k: string, i: int) {
    0 <= i && i + |k| <= |s| && s[i..i + |k|] == k
  }

  /** Python's `k in s` on strings: `k` occurs in `s` as a contiguous substring. */
  predicate Contains(s: string, k: string) {
    exists i :: 0 <= i <= |s| && SliceAt(s, k, i)
  }

  // ----- lemmas -----

  lemma {:induction false} TitleFromLength(s: string, afterLetter: bool)
    ensures |TitleFrom(s, afterLetter)| == |s|
  {
    if s != [] {
      TitleFromLength(s[1..], IsLetter(s[0]));
    }
  }

  lemma {:induction false} TitleFromAt(s: string, afterLetter: bool, i: nat)
    requires i < |s|
    ensures |TitleFrom(s, afterLetter)| == |s|
    ensures TitleFrom(s, afterLetter)[i] ==
      if !IsLetter(s[i]) then s[i]
      else if (if i == 0 then afterLetter else IsLetter(s[i - 1])) then LowerChar(s[i])
      else UpperChar(s[i])
  {
    TitleFromLength(s, afterLetter);
    if i > 0 {
      TitleFromAt(s[1..], IsLetter(s[0]), i - 1);
      assert s[1..][i - 1] == s[i];
      if i > 1 {
        assert s[1..][i - 2] == s[i - 1];
      }
    }
  }

  /** `title` keeps every non-letter where it was, so it neither adds nor removes whitespace. */
  lemma TitleKeepsWords(w: string)
    requires IsWord(w)
    ensures IsWord(Title(w))
  {
    forall i | 0 <= i < |w|
      ensures !IsSpace(Title(w)[i])
    {
      assert Title(w)[i] == TitledAt(w, i);
    }
  }

  /** `title` is idempotent: a titled string is titled already. */
  lemma TitleIdempotent(s: string)
    ensures Title(Title(s)) == Title(s)
  {
    var t := Title(s);
    forall i | 0 <= i < |s|
      ensures Title(t)[i] == t[i]
    {
      assert Title(t)[i] == TitledAt(t, i) && t[i] == TitledAt(s, i);
      if i > 0 {
        assert t[i - 1] == TitledAt(s, i - 1);
      }
    }
  }

  lemma ContainsSelf(s: string)
    ensures Contains(s, s)
  {
    assert SliceAt(s, s, 0);
  }

  /** A string contains its own beginning. */
  lemma ContainsSelfPrefix(k: string, rest: string)
    ensures Contains(k + rest, k)
  {
    ContainsSelf(k);
    ContainsInPrefix(k, rest, k);
  }

  lemma ContainsInSuffix(a: string, b: string, k: string)
    requires Contains(b, k)
    ensures Contains(a + b, k)
  {
    var i :| 0 <= i <= |b| && SliceAt(b, k, i);
    assert (a + b)[|a| + i..|a| + i + |k|] == b[i..i + |k|];
    assert SliceAt(a + b, k, |a| + i);
  }

  /** A string contains its own ending. */
  lemma ContainsAtEnd(a: string, k: string)
    ensures Contains(a + k, k)
  {
    assert (a + k)[|a|..|a| + |k|] == k;
    assert SliceAt(a + k, k, |a|);
  }

  /** What a prefix contains, the whole string contains. */
  lemma ContainsInLonger(s: string, t: string, k: string)
    requires s <= t && Contains(s, k)
    ensures Contains(t, k)
  {
    var i :| 0 <= i <= |s| && SliceAt(s, k, i);
    assert t[i..i + |k|] == s[i..i + |k|];
    assert SliceAt(t, k, i);
  }

  /** A string that starts with `p` neither starts with nor equals a string `q`
      that differs from `p` at some position both have. */
  lemma PrefixesClash(p: string, q: string, s: string, i: nat)
    requires p <= s && i < |p| && i < |q| && p[i] != q[i]
    ensures !(q <= s) && s != q
  {
    assert s[i] == p[i];
  }

  lemma ContainsInPrefix(a: string, b: string, k: string)
    requires Contains(a, k)
    ensures Contains(a + b, k)
  {
    var i :| 0 <= i <= |a| && SliceAt(a, k, i);
    assert (a + b)[i..i + |k|] == a[i..i + |k|];
    assert SliceAt(a + b, k, i);
  }

  /** A string in which some character of `k` never occurs does not contain `k`. */
  lemma NotContainsChar(s: string, k: string, j: nat)
    requires j < |k|
    requires forall i :: 0 <= i < |s| ==> s[i] != k[j]
    ensures !Contains(s, k)
  {
    forall i | 0 <= i <= |s|
      ensures !SliceAt(s, k, i)
    {
      if i + |k| <= |s| {
        assert s[i + j] != k[j];
        assert s[i..i + |k|][j] == s[i + j];
      }
    }
  }

  lemma {:induction false} LeadingWordOf(w: string, rest: string)
    requires forall i :: 0 <= i < |w| ==> !IsSpace(w[i])
    requires rest == [] || IsSpace(rest[0])
    ensures LeadingWord(w + rest) == w
  {
    if w != [] {
      assert (w + rest)[1..] == w[1..] + rest;
      LeadingWordOf(w[1..], rest);
    } else {
      assert w + rest == rest;
    }
  }

  lemma SplitSkipsSpace(c: char, s: string)
    requires IsSpace(c)
    ensures Split([c] + s) == Split(s)
  {
    assert ([c] + s)[1..] == s;
  }

  /** Splitting a word followed by a whitespace character or by nothing yields
      that word first. */
  lemma SplitWordFirst(w: string, rest: string)
    requires IsWord(w)
    requires rest == [] || IsSpace(rest[0])
    ensures Split(w + rest) == [w] + Split(rest)
  {
    var s := w + rest;
    assert TrimStart(s) == s;
    LeadingWordOf(w, rest);
    assert s[|w|..] == rest;
  }

  /** `" ".join` and `split` are inverse on lists of words: splitting the joined
      words gives back the same words. */
  lemma {:induction false} SplitJoin(words: seq<string>)
    requires forall k :: 0 <= k < |words| ==> IsWord(words[k])
    ensures Split(Join(words, " ")) == words
  {
    if |words| == 1 {
      SplitOneWord(words[0]);
    } else if |words| > 1 {
      assert forall k :: 0 <= k < |words| - 1 ==> words[1..][k] == words[k + 1];
      SplitJoin(words[1..]);
      SplitJoinStep(words);
    }
  }

  lemma SplitOneWord(w: string)
    requires IsWord(w)
    ensures Split(w) == [w]
  {
    SplitWordFirst(w, []);
    assert w + [] == w;
  }

  lemma SplitJoinStep(words: seq<string>)
    requires |words| > 1 && IsWord(words[0])
    requires Split(Join(words[1..], " ")) == words[1..]
    ensures Split(Join(words, " ")) == words
  {
    JoinCons(words, " ");
    SplitWordThenSpace(words[0], Join(words[1..], " "));
    assert words == [words[0]] + words[1..];
  }

  /** `join` of two or more parts: the first part, the separator, the rest joined. */
  lemma JoinCons(parts: seq<string>, sep: string)
    requires |parts| > 1
    ensures Join(parts, sep) == parts[0] + (sep + Join(parts[1..], sep))
  {
  }

  /** A word followed by a space and more text splits into that word and the
      split of the rest. */
  lemma SplitWordThenSpace(w: string, rest: string)
    requires IsWord(w)
    ensures Split(w + (" " + rest)) == [w] + Split(rest)
  {
    SplitWordFirst(w, " " + rest);
    SplitSkipsSpace(' ', rest);
    assert [' '] + rest == " " + rest;
  }

  /** Joining a non-empty list of words gives a string that starts with the first word. */
  lemma JoinStartsWith(words: seq<string>)
    requires |words| > 0 && IsWord(words[0])
    ensures |Join(words, " ")| > 0 && Join(words, " ")[0] == words[0][0]
  {
  }
}
