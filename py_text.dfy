/** The Python `str` built-ins the core relies on (`str.title`, `str.lower`,
    `str.split` with a one-character separator, `''.join` and `sep.join`),
    modelled over ASCII: a character is cased exactly when it is an ASCII letter. */
module PyText {

  predicate IsUpper(c: char) { 'A' <= c <= 'Z' }
  predicate IsLower(c: char) { 'a' <= c <= 'z' }
  predicate IsDigit(c: char) { '0' <= c <= '9' }
  predicate IsLetter(c: char) { IsUpper(c) || IsLower(c) }

  function Upper(c: char): (u: char)
    ensures IsLetter(c) <==> IsLetter(u)
    ensures !IsLower(u)
    ensures !IsLetter(c) ==> u == c
  {
    if IsLower(c) then (c as int - 32) as char else c
  }

  function Lower(c: char): (l: char)
    ensures IsLetter(c) <==> IsLetter(l)
    ensures !IsUpper(l)
    ensures !IsLetter(c) ==> l == c
  {
    if IsUpper(c) then (c as int + 32) as char else c
  }

  /** `s.lower()` */
  function LowerStr(s: string): (r: string)
    ensures |r| == |s|
    ensures forall i :: 0 <= i < |s| ==> r[i] == Lower(s[i])
    ensures forall i :: 0 <= i < |r| ==> !IsUpper(r[i])
    ensures forall i :: 0 <= i < |s| && !IsUpper(s[i]) ==> r[i] == s[i]
  {
    seq(|s|, i requires 0 <= i < |s| => Lower(s[i]))
  }

  /** Number of occurrences of `c` in `s`. */
  function Count(s: string, c: char): nat
  {
    if s == [] then 0 else (if s[0] == c then 1 else 0) + Count(s[1..], c)
  }

  /** `s` with every occurrence of `c` dropped. */
  function Remove(s: string, c: char): (r: string)
    ensures c !in r
    ensures |r| == |s| - Count(s, c)
  {
    if s == [] then [] else (if s[0] == c then [] else [s[0]]) + Remove(s[1..], c)
  }

  /** Whether the character before position `i` of `s` is cased, where
      `prevCased` says so for the character before `s` itself. */
  function CasedBefore(s: string, i: nat, prevCased: bool): bool
    requires i < |s|
  {
    if i == 0 then prevCased else IsLetter(s[i - 1])
  }

  /** The title-casing of one character, given whether the one before it is cased. */
  function TitleChar(c: char, prevCased: bool): (t: char)
    ensures IsLetter(c) <==> IsLetter(t)
    ensures !IsLetter(c) ==> t == c
  {
    if prevCased then Lower(c) else Upper(c)
  }

  /** `str.title()` continued from a state in which the previous character was
      (or was not) cased: a character after a cased one is lower-cased, any
      other is upper-cased. */
  function TitleFrom(s: string, prevCased: bool): (r: string)
    ensures |r| == |s|
  {
    if s == [] then []
    else [TitleChar(s[0], prevCased)] + TitleFrom(s[1..], IsLetter(s[0]))
  }

  /** Each character of the title-cased string depends only on the character
      in the same place and on whether the one before it is cased. */
  lemma {:induction false} TitleFromAt(s: string, prevCased: bool)
    ensures forall i :: 0 <= i < |s| ==>
      TitleFrom(s, prevCased)[i] == TitleChar(s[i], CasedBefore(s, i, prevCased))
  {
    if s != [] {
      TitleFromAt(s[1..], IsLetter(s[0]));
      var r := TitleFrom(s, prevCased);
      forall i | 0 <= i < |s|
        ensures r[i] == TitleChar(s[i], CasedBefore(s, i, prevCased))
      {
        if i > 0 {
          assert r[i] == TitleFrom(s[1..], IsLetter(s[0]))[i - 1];
        }
      }
    }
  }

  /** `s.title()` */
  function Title(s: string): (r: string)
    ensures |r| == |s|
    ensures forall i :: 0 <= i < |s| ==> r[i] == TitleChar(s[i], CasedBefore(s, i, false))
  {
    TitleFromAt(s, false);
    TitleFrom(s, false)
  }

  /** `''.join(parts)` */
  function Concat(parts: seq<string>): (r: string)
    ensures forall c :: c in r <==> exists k :: 0 <= k < |parts| && c in parts[k]
  {
    if parts == [] then "" else parts[0] + Concat(parts[1..])
  }

  /** `sep.join(parts)` */
  function JoinWith(parts: seq<string>, sep: char): string
  {
    if parts == [] then ""
    else if |parts| == 1 then parts[0]
    else parts[0] + [sep] + JoinWith(parts[1..], sep)
  }

  /** `[x.title() for x in parts]` */
  function TitleEach(parts: seq<string>): (r: seq<string>)
    ensures |r| == |parts|
    ensures forall i :: 0 <= i < |parts| ==> r[i] == Title(parts[i])
  {
    seq(|parts|, i requires 0 <= i < |parts| => Title(parts[i]))
  }

  /** `s.split(sep)`: the pieces between occurrences of `sep`, always at least one. */
  function Split(s: string, sep: char): (parts: seq<string>)
    ensures |parts| == Count(s, sep) + 1
    ensures forall k :: 0 <= k < |parts| ==> sep !in parts[k]
  {
    if s == [] then [""]
    else
      var rest := Split(s[1..], sep);
      if s[0] == sep then [""] + rest
      else [[s[0]] + rest[0]] + rest[1..]
  }

  /** Joining the pieces of `s.split(sep)` with `sep` gives `s` back. */
  lemma {:induction false} JoinWithSplit(s: string, sep: char)
    ensures JoinWith(Split(s, sep), sep) == s
  {
    if s != [] {
      JoinWithSplit(s[1..], sep);
      var rest := Split(s[1..], sep);
      if s[0] != sep && |rest| > 1 {
        assert rest == [rest[0]] + rest[1..];
        assert JoinWith(rest, sep) == rest[0] + [sep] + JoinWith(rest[1..], sep);
      }
    }
  }

  /** A string without the separator does not split. */
  lemma {:induction false} SplitWithoutSeparator(s: string, sep: char)
    requires sep !in s
    ensures Split(s, sep) == [s]
  {
    if s != [] {
      SplitWithoutSeparator(s[1..], sep);
      assert [s[0]] + s[1..] == s;
    }
  }

  /** Splitting distributes over a separator placed between two strings. */
  lemma {:induction false} SplitAround(a: string, b: string, sep: char)
    ensures Split(a + [sep] + b, sep) == Split(a, sep) + Split(b, sep)
  {
    if a == [] {
      assert a + [sep] + b == [sep] + b;
      assert ([sep] + b)[1..] == b;
    } else {
      assert (a + [sep] + b)[1..] == a[1..] + [sep] + b;
      SplitAround(a[1..], b, sep);
    }
  }

  /** `sep.join` followed by `split(sep)` gives the pieces back when no piece
      contains the separator. */
  lemma {:induction false} SplitJoinWith(parts: seq<string>, sep: char)
    requires parts != []
    requires forall k :: 0 <= k < |parts| ==> sep !in parts[k]
    ensures Split(JoinWith(parts, sep), sep) == parts
  {
    if |parts| == 1 {
      SplitWithoutSeparator(parts[0], sep);
    } else {
      SplitWithoutSeparator(parts[0], sep);
      SplitJoinWith(parts[1..], sep);
      SplitAround(parts[0], JoinWith(parts[1..], sep), sep);
      assert [parts[0]] + parts[1..] == parts;
    }
  }

  lemma {:induction false} RemoveAppend(a: string, b: string, c: char)
    ensures Remove(a + b, c) == Remove(a, c) + Remove(b, c)
  {
    if a == [] {
      assert a + b == b;
    } else {
      assert (a + b)[1..] == a[1..] + b;
      RemoveAppend(a[1..], b, c);
    }
  }

  /** Title-casing each piece of `s.split(sep)` and joining the results with
      nothing between them is the same as title-casing `s` whole and dropping
      every separator: a non-letter separator is uncased, so casing restarts
      after it exactly as it does at the start of a new piece. */
  lemma {:induction false} TitleOfPieces(s: string, sep: char, prevCased: bool)
    requires !IsLetter(sep)
    ensures var parts := Split(s, sep);
      TitleFrom(parts[0], prevCased) + Concat(TitleEach(parts[1..]))
        == Remove(TitleFrom(s, prevCased), sep)
    decreases |s|, 1
  {
    if s != [] {
      var head := TitleChar(s[0], prevCased);
      var tail := TitleFrom(s[1..], IsLetter(s[0]));
      assert TitleFrom(s, prevCased) == [head] + tail;
      RemoveAppend([head], tail, sep);
      if s[0] == sep {
        TitleOfPiecesAtSeparator(s, sep, prevCased);
      } else {
        TitleOfPiecesInPiece(s, sep, prevCased);
      }
    }
  }

  /** The step of TitleOfPieces when `s` starts with the separator. */
  lemma {:induction false} TitleOfPiecesAtSeparator(s: string, sep: char, prevCased: bool)
    requires !IsLetter(sep) && s != [] && s[0] == sep
    ensures var parts := Split(s, sep);
      TitleFrom(parts[0], prevCased) + Concat(TitleEach(parts[1..]))
        == Remove(TitleFrom(s[1..], false), sep)
    decreases |s|, 0
  {
    var parts := Split(s, sep);
    var rest := Split(s[1..], sep);
    assert parts == [""] + rest;
    TitleOfPieces(s[1..], sep, false);
    calc {
      TitleFrom(parts[0], prevCased) + Concat(TitleEach(parts[1..]));
      { assert parts[1..] == rest; }
      Concat(TitleEach(rest));
      { assert TitleEach(rest)[1..] == TitleEach(rest[1..]); }
      Title(rest[0]) + Concat(TitleEach(rest[1..]));
    }
  }

  /** The step of TitleOfPieces when `s` starts inside its first piece. */
  lemma {:induction false} TitleOfPiecesInPiece(s: string, sep: char, prevCased: bool)
    requires !IsLetter(sep) && s != [] && s[0] != sep
    ensures var parts := Split(s, sep);
      TitleFrom(parts[0], prevCased) + Concat(TitleEach(parts[1..]))
        == [TitleChar(s[0], prevCased)]
           + Remove(TitleFrom(s[1..], IsLetter(s[0])), sep)
    decreases |s|, 0
  {
    var parts := Split(s, sep);
    var rest := Split(s[1..], sep);
    SplitCons(s, sep);
    assert parts[0] == [s[0]] + rest[0] && parts[1..] == rest[1..];
    TitleOfPieces(s[1..], sep, IsLetter(s[0]));
    TitleFromCons(s[0], rest[0], prevCased);
  }

  /** One unfolding of Split at a character that is not the separator. */
  lemma SplitCons(s: string, sep: char)
    requires s != [] && s[0] != sep
    ensures Split(s, sep)[0] == [s[0]] + Split(s[1..], sep)[0]
    ensures Split(s, sep)[1..] == Split(s[1..], sep)[1..]
  {
  }

  lemma TitleFromCons(c: char, s: string, prevCased: bool)
    ensures TitleFrom([c] + s, prevCased)
      == [TitleChar(c, prevCased)] + TitleFrom(s, IsLetter(c))
  {
    assert ([c] + s)[1..] == s;
  }

  /** Title-casing never adds or removes a non-letter. */
  lemma {:induction false} CountTitle(s: string, c: char, prevCased: bool)
    requires !IsLetter(c)
    ensures Count(TitleFrom(s, prevCased), c) == Count(s, c)
  {
    if s != [] {
      var t := TitleFrom(s, prevCased);
      assert t[1..] == TitleFrom(s[1..], IsLetter(s[0]));
      CountTitle(s[1..], c, IsLetter(s[0]));
    }
  }

  /** `s.title().title() == s.title()` */
  lemma TitleIdempotent(s: string)
    ensures Title(Title(s)) == Title(s)
  {
    var t := Title(s);
    forall i | 0 <= i < |s|
      ensures Title(t)[i] == t[i]
    {
      var cased := i > 0 && IsLetter(s[i - 1]);
      assert t[i] == TitleChar(s[i], cased);
      if i > 0 {
        assert t[i - 1] == TitleChar(s[i - 1], i - 1 > 0 && IsLetter(s[i - 2]));
      }
      assert Title(t)[i] == TitleChar(t[i], cased);
    }
  }

  /** `''.join(x.title() for x in parts)` title-cases the first piece and then the rest. */
  lemma ConcatTitleEach(parts: seq<string>)
    requires parts != []
    ensures Concat(TitleEach(parts)) == Title(parts[0]) + Concat(TitleEach(parts[1..]))
  {
    assert TitleEach(parts)[1..] == TitleEach(parts[1..]);
  }

  lemma {:induction false} CountAppend(a: string, b: string, c: char)
    ensures Count(a + b, c) == Count(a, c) + Count(b, c)
  {
    if a == [] {
      assert a + b == b;
    } else {
      assert (a + b)[1..] == a[1..] + b;
      CountAppend(a[1..], b, c);
    }
  }

  /** When `s` holds the separator, its first piece is what stands before the
      first separator and the other pieces are the split of what follows it. */
  lemma {:induction false} SplitFirstPiece(s: string, sep: char)
    requires sep in s
    ensures var first := Split(s, sep)[0];
      && |first| < |s| && s[..|first|] == first && s[|first|] == sep
      && Split(s, sep)[1..] == Split(s[|first| + 1..], sep)
  {
    if s[0] != sep {
      SplitFirstPiece(s[1..], sep);
      SplitCons(s, sep);
      var first' := Split(s[1..], sep)[0];
      assert s[1..][|first'| + 1..] == s[|first'| + 2..];
      assert s[..|first'| + 1] == [s[0]] + s[1..][..|first'|];
    }
  }

  lemma {:induction false} RemoveWithout(s: string, c: char)
    requires c !in s
    ensures Remove(s, c) == s && Count(s, c) == 0
  {
    if s != [] {
      RemoveWithout(s[1..], c);
      assert [s[0]] + s[1..] == s;
    }
  }

  lemma LowerOfUpper(c: char)
    requires IsLower(c)
    ensures Lower(Upper(c)) == c
  {
  }

  lemma LowerStrAppend(a: string, b: string)
    ensures LowerStr(a + b) == LowerStr(a) + LowerStr(b)
  {
  }

  /** A word of lower-case letters title-cases to its capitalised form. */
  lemma TitleOfLowerWord(w: string)
    requires w != [] && forall i :: 0 <= i < |w| ==> IsLower(w[i])
    ensures Title(w) == [Upper(w[0])] + w[1..]
  {
    var t := Title(w);
    forall i | 0 <= i < |w|
      ensures t[i] == ([Upper(w[0])] + w[1..])[i]
    {
      if i > 0 {
        assert IsLetter(w[i - 1]);
        assert t[i] == TitleChar(w[i], true);
      }
    }
  }

  lemma RemoveCongruence(a: string, b: string, x: string, y: string, c: char)
    requires Remove(a, c) == Remove(b, c) && Remove(x, c) == Remove(y, c)
    ensures Remove(a + x, c) == Remove(b + y, c)
  {
    RemoveAppend(a, x, c);
    RemoveAppend(b, y, c);
  }
}
