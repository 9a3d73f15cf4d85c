/** The two key-case conversions of `AppShared/utils.py`, `to_camel` and
    `to_snake`. */
module AppSharedUtils {
  import opened Options
  import opened PyText
  import opened OrderedDict

  // ---------------------------------------------------------------------------
  // Key-case conversion

  /** `to_camel`: split the name on '_', keep the first piece as it is, title-case
      every later piece and join them with nothing between. */
  function ToCamel(name: string): (r: string)
    ensures '_' !in r
    ensures |r| == |name| - Count(name, '_')
    ensures '_' !in name ==> r == name
  {
    ToCamelShape(name);
    var components := Split(name, '_');
    components[0] + Concat(TitleEach(components[1..]))
  }

  /** A second route to `to_camel`: the text before the first '_' as it is,
      followed by the rest title-cased with its underscores dropped. */
  lemma ToCamelShape(name: string)
    ensures var components := Split(name, '_');
      '_' !in name ==> components == [name]
    ensures var components := Split(name, '_');
      '_' in name ==>
        && |components[0]| < |name|
        && components[0] + Concat(TitleEach(components[1..]))
             == components[0] + Remove(Title(name[|components[0]| + 1..]), '_')
    ensures var components := Split(name, '_');
      |components[0] + Concat(TitleEach(components[1..]))| == |name| - Count(name, '_')
  {
    if '_' !in name {
      SplitWithoutSeparator(name, '_');
    } else {
      var first := Split(name, '_')[0];
      var tail := name[|first| + 1..];
      SplitFirstPiece(name, '_');
      TailTitles(tail);
      assert Split(name, '_')[1..] == Split(tail, '_');
      UnderscoreCount(name, first, tail);
    }
  }

  lemma TailTitles(tail: string)
    ensures Concat(TitleEach(Split(tail, '_'))) == Remove(Title(tail), '_')
    ensures |Remove(Title(tail), '_')| == |tail| - Count(tail, '_')
  {
    ConcatTitleEach(Split(tail, '_'));
    TitleOfPieces(tail, '_', false);
    CountTitle(tail, '_', false);
  }

  lemma UnderscoreCount(name: string, first: string, tail: string)
    requires |first| < |name| && name[..|first|] == first && name[|first|] == '_'
    requires tail == name[|first| + 1..] && '_' !in first
    ensures Count(name, '_') == Count(tail, '_') + 1
  {
    assert name == first + "_" + tail;
    CountAppend(first + "_", tail, '_');
    CountAppend(first, "_", '_');
    assert Count(first, '_') == 0 by {
      var r := Remove(first, '_');
      RemoveWithout(first, '_');
    }
  }

  /** `to_camel` is idempotent: its result has no '_' left to act on. */
  lemma ToCamelIdempotent(name: string)
    ensures ToCamel(ToCamel(name)) == ToCamel(name)
  {
  }

  predicate IsLowerOrDigit(c: char) { IsLower(c) || IsDigit(c) }

  /** Length of the run of lower-case letters that `s` starts with. */
  function LowerRun(s: string): (n: nat)
    ensures n <= |s|
    ensures forall i :: 0 <= i < n ==> IsLower(s[i])
    ensures n < |s| ==> !IsLower(s[n])
  {
    if s != [] && IsLower(s[0]) then 1 + LowerRun(s[1..]) else 0
  }

  /** First pass of `to_snake`, `re.sub('(.)([A-Z][a-z]+)', r'\1_\2', name)`:
      scanning from the left, a character other than a newline that is followed
      by an upper-case letter and a run of lower-case letters gets '_' after it,
      and the scan resumes after the whole run. */
  function SubWordStarts(s: string): (r: string)
    ensures |r| >= |s|
    ensures s != [] ==> r != [] && r[0] == s[0]
    decreases |s|
  {
    if |s| >= 3 && s[0] != '\n' && IsUpper(s[1]) && IsLower(s[2]) then
      var n := 2 + LowerRun(s[2..]);
      [s[0], '_'] + s[1..n] + SubWordStarts(s[n..])
    else if s == [] then []
    else [s[0]] + SubWordStarts(s[1..])
  }

  /** Second pass of `to_snake`, `re.sub('([a-z0-9])([A-Z])', r'\1_\2', s1)`:
      a lower-case letter or digit followed by an upper-case letter gets '_'
      between them, and the scan resumes after the pair. */
  function SubCaseBoundaries(s: string): (r: string)
    ensures |r| >= |s|
    ensures s != [] ==> r != [] && r[0] == s[0]
  {
    if |s| >= 2 && IsLowerOrDigit(s[0]) && IsUpper(s[1]) then
      [s[0], '_', s[1]] + SubCaseBoundaries(s[2..])
    else if s == [] then []
    else [s[0]] + SubCaseBoundaries(s[1..])
  }

  /** `to_snake`: both passes, then `lower()`. The result has no upper-case
      letter, and apart from its underscores it is the lower-cased name: the
      passes only ever insert underscores. */
  function ToSnake(name: string): (r: string)
    ensures forall i :: 0 <= i < |r| ==> !IsUpper(r[i])
    ensures Remove(r, '_') == LowerStr(Remove(name, '_'))
  {
    var s1 := SubWordStarts(name);
    var s2 := SubCaseBoundaries(s1);
    SubWordStartsInsertsUnderscores(name);
    SubCaseBoundariesInsertsUnderscores(s1);
    RemoveLower(s2);
    LowerStr(s2)
  }

  lemma RemoveInserted(c: char, mid: string)
    ensures Remove([c, '_'] + mid, '_') == Remove([c] + mid, '_')
  {
    RemoveAppend([c, '_'], mid, '_');
    RemoveAppend([c], mid, '_');
    RemoveAppend([c], ['_'], '_');
    assert [c, '_'] == [c] + ['_'];
  }

  /** One step of the first pass where it matches at the start. */
  lemma SubWordStartsAtWord(t: string)
    requires |t| >= 3 && t[0] != '\n' && IsUpper(t[1]) && IsLower(t[2])
    ensures var n := 2 + LowerRun(t[2..]);
      SubWordStarts(t) == [t[0], '_'] + t[1..n] + SubWordStarts(t[n..])
  {
  }

  /** Text that loses the same characters to `Remove` piece by piece as `s`
      does, split at `n`, loses the same in all. */
  lemma RemoveSplit(s: string, n: nat, front: string, back: string)
    requires n <= |s|
    requires Remove(front, '_') == Remove(s[..n], '_')
    requires Remove(back, '_') == Remove(s[n..], '_')
    ensures Remove(front + back, '_') == Remove(s, '_')
  {
    RemoveCongruence(front, s[..n], back, s[n..], '_');
    assert s == s[..n] + s[n..];
  }

  lemma {:induction false} SubWordStartsInsertsUnderscores(s: string)
    ensures Remove(SubWordStarts(s), '_') == Remove(s, '_')
    decreases |s|
  {
    if |s| >= 3 && s[0] != '\n' && IsUpper(s[1]) && IsLower(s[2]) {
      var n := 2 + LowerRun(s[2..]);
      SubWordStartsAtWord(s);
      SubWordStartsInsertsUnderscores(s[n..]);
      RemoveInserted(s[0], s[1..n]);
      assert [s[0]] + s[1..n] == s[..n];
      RemoveSplit(s, n, [s[0], '_'] + s[1..n], SubWordStarts(s[n..]));
    } else if s != [] {
      assert SubWordStarts(s) == [s[0]] + SubWordStarts(s[1..]);
      SubWordStartsInsertsUnderscores(s[1..]);
      assert [s[0]] == s[..1];
      RemoveSplit(s, 1, [s[0]], SubWordStarts(s[1..]));
    }
  }

  lemma {:induction false} SubCaseBoundariesInsertsUnderscores(s: string)
    ensures Remove(SubCaseBoundaries(s), '_') == Remove(s, '_')
  {
    if |s| >= 2 && IsLowerOrDigit(s[0]) && IsUpper(s[1]) {
      var pair := [s[0], '_'] + [s[1]];
      assert SubCaseBoundaries(s) == pair + SubCaseBoundaries(s[2..]);
      SubCaseBoundariesInsertsUnderscores(s[2..]);
      RemoveInserted(s[0], [s[1]]);
      assert [s[0]] + [s[1]] == s[..2];
      RemoveSplit(s, 2, pair, SubCaseBoundaries(s[2..]));
    } else if s != [] {
      assert SubCaseBoundaries(s) == [s[0]] + SubCaseBoundaries(s[1..]);
      SubCaseBoundariesInsertsUnderscores(s[1..]);
      assert [s[0]] == s[..1];
      RemoveSplit(s, 1, [s[0]], SubCaseBoundaries(s[1..]));
    }
  }

  /** Lower-casing never creates or removes an underscore. */
  lemma {:induction false} RemoveLower(s: string)
    ensures Remove(LowerStr(s), '_') == LowerStr(Remove(s, '_'))
  {
    if s != [] {
      var head := [Lower(s[0])];
      var rest := Remove(s[1..], '_');
      assert LowerStr(s) == head + LowerStr(s[1..]);
      RemoveAppend(head, LowerStr(s[1..]), '_');
      RemoveLower(s[1..]);
      assert Remove(s, '_') == (if s[0] == '_' then [] else [s[0]]) + rest;
      LowerAppend(if s[0] == '_' then [] else [s[0]], rest);
      LowerKeepsUnderscore(s[0]);
    }
  }

  /** A single character lower-cases to `_` exactly when it is `_`. */
  lemma LowerKeepsUnderscore(c: char)
    ensures Remove([Lower(c)], '_') == LowerStr(if c == '_' then [] else [c])
  {
    assert [Lower(c)][1..] == [];
  }

  lemma LowerAppend(a: string, b: string)
    ensures LowerStr(a + b) == LowerStr(a) + LowerStr(b)
  {
  }
}
