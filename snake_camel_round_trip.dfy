/** How `to_snake` and `to_camel` of `AppShared/utils.py` relate: on the
    snake-case column names the database uses, `to_snake` undoes `to_camel`. */
module SnakeCamelRoundTrip {
  import opened PyText
  import opened AppSharedUtils

  /** `s` with '_' put before every upper-case letter. */
  function UnderscoreBeforeCaps(s: string): string
  {
    if s == [] then []
    else (if IsUpper(s[0]) then ['_', s[0]] else [s[0]]) + UnderscoreBeforeCaps(s[1..])
  }

  /** Every upper-case letter after the first position follows a lower-case
      letter or a digit: the shape `to_camel` gives a snake-case name. */
  predicate CapsFollowLowerOrDigit(t: string)
  {
    forall i :: 0 < i < |t| && IsUpper(t[i]) ==> IsLowerOrDigit(t[i - 1])
  }

  predicate NoCaps(s: string)
  {
    forall i :: 0 <= i < |s| ==> !IsUpper(s[i])
  }

  lemma {:induction false} UnderscoreBeforeCapsAppend(a: string, b: string)
    ensures UnderscoreBeforeCaps(a + b) == UnderscoreBeforeCaps(a) + UnderscoreBeforeCaps(b)
  {
    if a == [] {
      assert a + b == b;
    } else {
      assert (a + b)[1..] == a[1..] + b;
      UnderscoreBeforeCapsAppend(a[1..], b);
    }
  }

  lemma {:induction false} UnderscoreBeforeNoCaps(s: string)
    requires NoCaps(s)
    ensures UnderscoreBeforeCaps(s) == s
  {
    if s != [] {
      UnderscoreBeforeNoCaps(s[1..]);
      assert [s[0]] + s[1..] == s;
    }
  }

  /** Whether the second pass puts '_' between the end of `a` and the start of `b`. */
  function Seam(a: string, b: string): string
    requires a != []
  {
    if b != [] && IsLowerOrDigit(a[|a| - 1]) && IsUpper(b[0]) then "_" else ""
  }

  /** The second pass acts on a concatenation piecewise, plus possibly one
      underscore where the two parts meet. */
  lemma {:induction false} SubCaseBoundariesAppend(a: string, b: string)
    requires a != []
    ensures SubCaseBoundaries(a + b) == SubCaseBoundaries(a) + Seam(a, b) + SubCaseBoundaries(b)
    decreases |a|, 1
  {
    if |a| == 1 {
      SubCaseBoundariesAppendOne(a[0], b);
      assert a == [a[0]];
    } else if IsLowerOrDigit(a[0]) && IsUpper(a[1]) {
      SubCaseBoundariesAppendPair(a, b);
    } else {
      SubCaseBoundariesAppendSingle(a, b);
    }
  }

  lemma {:induction false} SubCaseBoundariesAppendSingle(a: string, b: string)
    requires |a| >= 2 && !(IsLowerOrDigit(a[0]) && IsUpper(a[1]))
    ensures SubCaseBoundaries(a + b) == SubCaseBoundaries(a) + Seam(a, b) + SubCaseBoundaries(b)
    decreases |a|, 0
  {
    assert (a + b)[1..] == a[1..] + b;
    SubCaseBoundariesAppend(a[1..], b);
    assert SubCaseBoundaries(a + b) == [a[0]] + SubCaseBoundaries(a[1..] + b);
    assert SubCaseBoundaries(a) == [a[0]] + SubCaseBoundaries(a[1..]);
    assert Seam(a[1..], b) == Seam(a, b);
  }

  lemma SubCaseBoundariesAppendOne(c: char, b: string)
    ensures SubCaseBoundaries([c] + b) == [c] + Seam([c], b) + SubCaseBoundaries(b)
  {
    if b != [] {
      assert ([c] + b)[1..] == b;
      if IsLowerOrDigit(c) && IsUpper(b[0]) {
        assert ([c] + b)[2..] == b[1..];
        assert SubCaseBoundaries(b) == [b[0]] + SubCaseBoundaries(b[1..]);
      }
    } else {
      assert [c] + b == [c];
    }
  }

  lemma {:induction false} SubCaseBoundariesAppendPair(a: string, b: string)
    requires |a| >= 2 && IsLowerOrDigit(a[0]) && IsUpper(a[1])
    ensures SubCaseBoundaries(a + b) == SubCaseBoundaries(a) + Seam(a, b) + SubCaseBoundaries(b)
    decreases |a|, 0
  {
    assert (a + b)[2..] == a[2..] + b;
    assert SubCaseBoundaries(a + b) == [a[0], '_', a[1]] + SubCaseBoundaries(a[2..] + b);
    assert SubCaseBoundaries(a) == [a[0], '_', a[1]] + SubCaseBoundaries(a[2..]);
    if |a| > 2 {
      SubCaseBoundariesAppend(a[2..], b);
      assert Seam(a[2..], b) == Seam(a, b);
    } else {
      assert a[2..] + b == b;
      assert Seam(a, b) == "";
    }
  }

  /** Where no lower-case letter or digit is followed by an upper-case letter,
      the second pass changes nothing. */
  lemma {:induction false} SubCaseBoundariesNoPair(s: string)
    requires forall i :: 0 <= i < |s| - 1 ==> !(IsLowerOrDigit(s[i]) && IsUpper(s[i + 1]))
    ensures SubCaseBoundaries(s) == s
  {
    if s != [] {
      SubCaseBoundariesNoPair(s[1..]);
      assert [s[0]] + s[1..] == s;
    }
  }

  /** On text of the shape `to_camel` produces, the two substitution passes of
      `to_snake` together put '_' before every upper-case letter but a leading one. */
  lemma {:induction false} BothPasses(t: string)
    requires t != [] && CapsFollowLowerOrDigit(t)
    ensures SubCaseBoundaries(SubWordStarts(t)) == [t[0]] + UnderscoreBeforeCaps(t[1..])
    decreases |t|, 2
  {
    if |t| >= 3 && t[0] != '\n' && IsUpper(t[1]) && IsLower(t[2]) {
      BothPassesAtWord(t);
    } else if |t| >= 2 {
      BothPassesElsewhere(t);
    }
  }

  lemma CapsFollowSuffix(t: string, n: nat)
    requires n <= |t| && CapsFollowLowerOrDigit(t)
    ensures CapsFollowLowerOrDigit(t[n..])
  {
    forall i | 0 < i < |t[n..]| && IsUpper(t[n..][i])
      ensures IsLowerOrDigit(t[n..][i - 1])
    {
      assert t[n..][i] == t[n + i] && t[n..][i - 1] == t[n + i - 1];
    }
  }

  /** The step of BothPasses where the first pass matches at the start. */
  lemma {:induction false} BothPassesAtWord(t: string)
    requires |t| >= 3 && t[0] != '\n' && IsUpper(t[1]) && IsLower(t[2])
    requires CapsFollowLowerOrDigit(t)
    ensures SubCaseBoundaries(SubWordStarts(t)) == [t[0]] + UnderscoreBeforeCaps(t[1..])
    decreases |t|, 1
  {
    var n := 2 + LowerRun(t[2..]);
    var a := [t[0], '_'] + t[1..n];
    var rest := t[n..];
    SubWordStartsAtWord(t);
    WordPassesUnchanged(t, n);
    SubCaseBoundariesAppend(a, SubWordStarts(rest));
    WordThenRest(t, n);
    BothPassesAfterWord(t, n);
    assert a + Seam(a, SubWordStarts(rest)) + SubCaseBoundaries(SubWordStarts(rest))
      == a + (Seam(a, SubWordStarts(rest)) + SubCaseBoundaries(SubWordStarts(rest)));
  }

  /** What follows the matched word: the seam and the passes over the rest
      together put '_' before its capitals. */
  lemma {:induction false} BothPassesAfterWord(t: string, n: nat)
    requires |t| >= 3 && t[0] != '\n' && IsUpper(t[1]) && IsLower(t[2])
    requires CapsFollowLowerOrDigit(t) && n == 2 + LowerRun(t[2..])
    ensures var a := [t[0], '_'] + t[1..n];
      Seam(a, SubWordStarts(t[n..])) + SubCaseBoundaries(SubWordStarts(t[n..]))
        == UnderscoreBeforeCaps(t[n..])
    decreases |t|, 0
  {
    var a := [t[0], '_'] + t[1..n];
    var rest := t[n..];
    if rest != [] {
      CapsFollowSuffix(t, n);
      BothPasses(rest);
      assert IsLower(t[2..][n - 3]);
      assert a[|a| - 1] == t[n - 1];
      assert UnderscoreBeforeCaps(rest)
        == (if IsUpper(rest[0]) then ['_', rest[0]] else [rest[0]]) + UnderscoreBeforeCaps(rest[1..]);
    } else {
      assert Seam(a, SubWordStarts(rest)) == "";
    }
  }

  /** The matched word, with its underscore, is left alone by the second pass. */
  lemma WordPassesUnchanged(t: string, n: nat)
    requires |t| >= 3 && IsUpper(t[1]) && n == 2 + LowerRun(t[2..])
    ensures SubCaseBoundaries([t[0], '_'] + t[1..n]) == [t[0], '_'] + t[1..n]
  {
    var a := [t[0], '_'] + t[1..n];
    forall i | 0 <= i < |a| - 1
      ensures !(IsLowerOrDigit(a[i]) && IsUpper(a[i + 1]))
    {
      if i >= 2 {
        assert a[i + 1] == t[i] && IsLower(t[2..][i - 2]);
      }
    }
    SubCaseBoundariesNoPair(a);
  }

  /** Putting '_' before the capitals of the text after the first character,
      where that text starts with the matched word. */
  lemma WordThenRest(t: string, n: nat)
    requires |t| >= 3 && IsUpper(t[1]) && n == 2 + LowerRun(t[2..])
    ensures [t[0]] + UnderscoreBeforeCaps(t[1..])
      == [t[0], '_'] + t[1..n] + UnderscoreBeforeCaps(t[n..])
  {
    UnderscoreBeforeCapsAppend(t[1..n], t[n..]);
    assert t[1..] == t[1..n] + t[n..];
    CapitalThenLowerRun(t, n);
  }

  /** The matched word itself: its capital gets '_', its lower-case run nothing. */
  lemma CapitalThenLowerRun(t: string, n: nat)
    requires |t| >= 3 && IsUpper(t[1]) && n == 2 + LowerRun(t[2..])
    ensures UnderscoreBeforeCaps(t[1..n]) == ['_'] + t[1..n]
  {
    LowerRunHasNoCaps(t[2..]);
    assert t[2..][..n - 2] == t[2..n];
    UnderscoreBeforeNoCaps(t[2..n]);
    assert t[1..n] == [t[1]] + t[2..n];
  }

  lemma LowerRunHasNoCaps(u: string)
    ensures NoCaps(u[..LowerRun(u)])
  {
    var k := LowerRun(u);
    forall i | 0 <= i < k
      ensures !IsUpper(u[..k][i])
    {
      assert IsLower(u[i]);
    }
  }

  /** The step of BothPasses where the first pass does not match at the start. */
  lemma {:induction false} BothPassesElsewhere(t: string)
    requires |t| >= 2 && !(|t| >= 3 && t[0] != '\n' && IsUpper(t[1]) && IsLower(t[2]))
    requires CapsFollowLowerOrDigit(t)
    ensures SubCaseBoundaries(SubWordStarts(t)) == [t[0]] + UnderscoreBeforeCaps(t[1..])
    decreases |t|, 0
  {
    assert SubWordStarts(t) == [t[0]] + SubWordStarts(t[1..]);
    CapsFollowSuffix(t, 1);
    BothPasses(t[1..]);
    SubCaseBoundariesAppend([t[0]], SubWordStarts(t[1..]));
    assert IsUpper(t[1]) ==> IsLowerOrDigit(t[0]);
    assert UnderscoreBeforeCaps(t[1..])
      == (if IsUpper(t[1]) then ['_', t[1]] else [t[1]]) + UnderscoreBeforeCaps(t[2..]);
  }

  lemma CapsFollowAppend(a: string, b: string)
    requires CapsFollowLowerOrDigit(a) && CapsFollowLowerOrDigit(b)
    requires a != [] && b != [] && IsUpper(b[0]) ==> IsLowerOrDigit(a[|a| - 1])
    ensures CapsFollowLowerOrDigit(a + b)
  {
    var t := a + b;
    forall i | 0 < i < |t| && IsUpper(t[i])
      ensures IsLowerOrDigit(t[i - 1])
    {
      if i > |a| {
        assert t[i] == b[i - |a|] && t[i - 1] == b[i - |a| - 1];
      } else if i == |a| {
        assert t[i] == b[0] && t[i - 1] == a[|a| - 1];
      }
    }
  }

  predicate IsLowerWord(w: string)
  {
    w != [] && forall i :: 0 <= i < |w| ==> IsLower(w[i])
  }

  /** Snake-case column names such as `student_id` or `hours_per_week`, given
      as their pieces: a first piece of lower-case letters and digits, then
      words of lower-case letters, every word but the last at least two long. */
  predicate SnakeCase(parts: seq<string>)
  {
    && parts != []
    && IsLowerOrDigitWord(parts[0])
    && (forall k :: 1 <= k < |parts| ==> IsLowerWord(parts[k]))
    && (forall k :: 1 <= k < |parts| - 1 ==> |parts[k]| >= 2)
  }

  /** The words each preceded by '_'. */
  function Underscored(words: seq<string>): string
  {
    if words == [] then "" else "_" + words[0] + Underscored(words[1..])
  }

  lemma {:induction false} JoinWithUnderscored(parts: seq<string>)
    requires parts != []
    ensures JoinWith(parts, '_') == parts[0] + Underscored(parts[1..])
  {
    if |parts| > 1 {
      JoinWithUnderscored(parts[1..]);
      assert parts[1..][1..] == parts[2..];
    }
  }

  /** One title-cased word: a capital followed by lower-case letters, which
      underscoring and lower-casing turn back into '_' and the word. */
  lemma LowerWordTail(w: string)
    requires IsLowerWord(w)
    ensures NoCaps(w[1..])
  {
    var tail := w[1..];
    forall i | 0 <= i < |tail|
      ensures !IsUpper(tail[i])
    {
      assert tail[i] == w[i + 1];
    }
  }

  lemma CapitalisedShape(w: string)
    requires IsLowerWord(w)
    ensures var cap := [Upper(w[0])] + w[1..];
      && IsUpper(cap[0]) && CapsFollowLowerOrDigit(cap)
      && (|w| >= 2 ==> IsLowerOrDigit(cap[|cap| - 1]))
  {
    var cap := [Upper(w[0])] + w[1..];
    forall i | 0 < i < |cap|
      ensures !IsUpper(cap[i])
    {
      assert cap[i] == w[i];
    }
    if |w| >= 2 {
      assert cap[|cap| - 1] == w[|w| - 1];
    }
  }

  lemma CapitalisedUnderscored(w: string)
    requires IsLowerWord(w)
    ensures LowerStr(UnderscoreBeforeCaps([Upper(w[0])] + w[1..])) == "_" + w
  {
    var tail := w[1..];
    LowerWordTail(w);
    UnderscoreBeforeNoCaps(tail);
    UnderscoreBeforeCapsAppend([Upper(w[0])], tail);
    assert UnderscoreBeforeCaps([Upper(w[0])]) == ['_', Upper(w[0])];
    LowerStrAppend(['_', Upper(w[0])], tail);
    LowerOfNoCaps(tail);
    assert LowerStr(['_', Upper(w[0])]) == ['_', w[0]] by {
      var l := LowerStr(['_', Upper(w[0])]);
      LowerOfUpper(w[0]);
      assert l[0] == '_' && l[1] == w[0];
    }
    assert "_" + w == ['_', w[0]] + tail;
  }

  /** One title-cased word: a capital followed by lower-case letters, which
      underscoring and lower-casing turn back into '_' and the word. */
  lemma CapitalisedWord(w: string)
    requires IsLowerWord(w)
    ensures var cap := Title(w);
      && cap != [] && IsUpper(cap[0]) && CapsFollowLowerOrDigit(cap)
      && (|w| >= 2 ==> IsLowerOrDigit(cap[|cap| - 1]))
      && LowerStr(UnderscoreBeforeCaps(cap)) == "_" + w
  {
    TitleOfLowerWord(w);
    CapitalisedShape(w);
    CapitalisedUnderscored(w);
  }

  /** What the two passes see of the title-cased words: each capital follows a
      lower-case letter, and with underscores before the capitals and
      lower-casing the words come back each preceded by '_'. */
  lemma {:induction false} TitledWords(words: seq<string>)
    requires forall k :: 0 <= k < |words| ==> IsLowerWord(words[k])
    requires forall k :: 0 <= k < |words| - 1 ==> |words[k]| >= 2
    ensures var x := Concat(TitleEach(words));
      && CapsFollowLowerOrDigit(x)
      && (words != [] ==> x != [] && IsUpper(x[0]))
      && LowerStr(UnderscoreBeforeCaps(x)) == Underscored(words)
  {
    if words != [] {
      var w := words[0];
      var rest := words[1..];
      TitledWords(rest);
      ConcatTitleEach(words);
      CapitalisedWord(w);
      var cap := Title(w);
      var y := Concat(TitleEach(rest));
      if rest != [] {
        assert |w| >= 2;
      }
      CapsFollowAppend(cap, y);
      UnderscoreBeforeCapsAppend(cap, y);
      LowerStrAppend(UnderscoreBeforeCaps(cap), UnderscoreBeforeCaps(y));
    }
  }

  lemma LowerOfNoCaps(s: string)
    requires NoCaps(s)
    ensures LowerStr(s) == s
  {
  }

  lemma SnakeCaseHasNoUnderscores(parts: seq<string>)
    requires SnakeCase(parts)
    ensures forall k :: 0 <= k < |parts| ==> '_' !in parts[k]
  {
    forall k | 0 <= k < |parts|
      ensures '_' !in parts[k]
    {
      if k == 0 {
        assert IsLowerOrDigitWord(parts[0]);
      } else {
        assert IsLowerWord(parts[k]);
      }
    }
  }

  /** `to_camel` of a snake-case name keeps its first piece and capitalises the rest. */
  lemma ToCamelOfSnakeCase(parts: seq<string>)
    requires SnakeCase(parts)
    ensures ToCamel(JoinWith(parts, '_')) == parts[0] + Concat(TitleEach(parts[1..]))
  {
    SnakeCaseHasNoUnderscores(parts);
    SplitJoinWith(parts, '_');
  }

  /** `to_snake` of a lower-case first piece followed by title-cased words. */
  predicate IsLowerOrDigitWord(w: string)
  {
    w != [] && forall i :: 0 <= i < |w| ==> IsLowerOrDigit(w[i])
  }

  lemma LowerOrDigitWordFacts(first: string)
    requires IsLowerOrDigitWord(first)
    ensures NoCaps(first) && NoCaps(first[1..]) && CapsFollowLowerOrDigit(first)
    ensures IsLowerOrDigit(first[|first| - 1])
  {
    forall i | 0 <= i < |first[1..]|
      ensures !IsUpper(first[1..][i])
    {
      assert first[1..][i] == first[i + 1];
    }
  }

  lemma UnderscoreAfterFirst(first: string, x: string)
    requires first != [] && NoCaps(first[1..])
    ensures var t := first + x;
      [t[0]] + UnderscoreBeforeCaps(t[1..]) == first + UnderscoreBeforeCaps(x)
  {
    var t := first + x;
    assert t[1..] == first[1..] + x;
    UnderscoreBeforeCapsAppend(first[1..], x);
    UnderscoreBeforeNoCaps(first[1..]);
    assert first == [first[0]] + first[1..];
  }

  /** `to_snake` of a lower-case first piece followed by title-cased words. */
  lemma ToSnakeOfCamel(first: string, words: seq<string>)
    requires IsLowerOrDigitWord(first)
    requires forall k :: 0 <= k < |words| ==> IsLowerWord(words[k])
    requires forall k :: 0 <= k < |words| - 1 ==> |words[k]| >= 2
    ensures ToSnake(first + Concat(TitleEach(words))) == first + Underscored(words)
  {
    var x := Concat(TitleEach(words));
    var t := first + x;
    TitledWords(words);
    LowerOrDigitWordFacts(first);
    CapsFollowAppend(first, x);
    BothPasses(t);
    UnderscoreAfterFirst(first, x);
    LowerStrAppend(first, UnderscoreBeforeCaps(x));
    LowerOfNoCaps(first);
  }

  /** On snake-case column names `to_snake` undoes `to_camel`:
      `to_snake(to_camel("hours_per_week")) == "hours_per_week"`. */
  lemma ToSnakeUndoesToCamel(parts: seq<string>)
    requires SnakeCase(parts)
    ensures ToSnake(ToCamel(JoinWith(parts, '_'))) == JoinWith(parts, '_')
  {
    ToCamelOfSnakeCase(parts);
    ToSnakeOfCamel(parts[0], parts[1..]);
    JoinWithUnderscored(parts);
  }

  /** `student_id` is looked up as `studentId` by the integration tests. */
  lemma StudentIdColumn()
    ensures ToCamel("student_id") == "studentId"
  {
    var parts := ["student", "id"];
    StudentIdPieces();
    assert parts[1..] == ["id"];
    CamelOfPieces(parts, "student_id", "studentId");
  }

  lemma StudentIdPieces()
    ensures JoinWith(["student", "id"], '_') == "student_id"
    ensures "student" + Concat(TitleEach(["id"])) == "studentId"
    ensures '_' !in "student" && '_' !in "id"
  {
    TitleOfLowerWord("id");
    assert Title("id") == "Id" by {
      assert Upper('i') == 'I';
      assert "id"[1..] == "d";
    }
    assert TitleEach(["id"]) == ["Id"];
  }

  /** `to_camel` of a name given as its pieces and the expected result. */
  lemma CamelOfPieces(parts: seq<string>, name: string, camel: string)
    requires parts != [] && forall k :: 0 <= k < |parts| ==> '_' !in parts[k]
    requires JoinWith(parts, '_') == name
    requires parts[0] + Concat(TitleEach(parts[1..])) == camel
    ensures ToCamel(name) == camel
  {
    SplitJoinWith(parts, '_');
  }

  lemma HoursPerWeekTitled()
    ensures "hours" + Concat(TitleEach(["per", "week"])) == "hoursPerWeek"
    ensures '_' !in "hours" && '_' !in "per" && '_' !in "week"
  {
    TitleOfLowerWord("per");
    TitleOfLowerWord("week");
    assert Title("per") == "Per" by {
      assert Upper('p') == 'P';
      assert "per"[1..] == "er";
    }
    assert Title("week") == "Week" by {
      assert Upper('w') == 'W';
      assert "week"[1..] == "eek";
    }
    assert TitleEach(["per", "week"]) == ["Per", "Week"];
  }

  lemma HoursPerWeekIsSnakeCase()
    ensures JoinWith(["hours", "per", "week"], '_') == "hours_per_week"
    ensures SnakeCase(["hours", "per", "week"])
  {
    var parts := ["hours", "per", "week"];
    assert JoinWith(parts[2..], '_') == "week";
    assert IsLowerWord("per") && IsLowerWord("week");
    assert IsLowerOrDigitWord("hours");
  }

  /** `hours_per_week` is looked up as `hoursPerWeek` by the integration tests. */
  lemma HoursPerWeekColumn()
    ensures ToCamel("hours_per_week") == "hoursPerWeek"
  {
    var parts := ["hours", "per", "week"];
    HoursPerWeekIsSnakeCase();
    HoursPerWeekTitled();
    assert parts[1..] == ["per", "week"];
    CamelOfPieces(parts, "hours_per_week", "hoursPerWeek");
  }

  /** ... and `to_snake` turns it back. */
  lemma HoursPerWeekRoundTrip()
    ensures ToSnake(ToCamel("hours_per_week")) == "hours_per_week"
  {
    HoursPerWeekIsSnakeCase();
    ToSnakeUndoesToCamel(["hours", "per", "week"]);
  }

  /** A one-letter word in the middle does not survive the round trip:
      `to_camel("a_b_c")` is `"aBC"` ... */
  lemma OneLetterWordCamel()
    ensures ToCamel("a_b_c") == "aBC"
  {
    var parts := ["a", "b", "c"];
    OneLetterPieces();
    assert parts[1..] == ["b", "c"];
    CamelOfPieces(parts, "a_b_c", "aBC");
  }

  lemma OneLetterPieces()
    ensures JoinWith(["a", "b", "c"], '_') == "a_b_c"
    ensures "a" + Concat(TitleEach(["b", "c"])) == "aBC"
    ensures '_' !in "a" && '_' !in "b" && '_' !in "c"
  {
    TitleOfLowerWord("b");
    TitleOfLowerWord("c");
    assert Title("b") == "B" && Title("c") == "C" by {
      assert Upper('b') == 'B' && Upper('c') == 'C';
    }
    assert TitleEach(["b", "c"]) == ["B", "C"];
  }

  /** ... and `to_snake` sees no boundary between the two capitals of `"aBC"`,
      giving `"a_bc"`. */
  lemma OneLetterWordSnake()
    ensures ToSnake("aBC") == "a_bc"
  {
    assert SubWordStarts("C") == "C";
    assert SubWordStarts("BC") == "BC";
    assert SubWordStarts("aBC") == "aBC";
    assert SubCaseBoundaries("C") == "C";
    assert SubCaseBoundaries("aBC") == "a_BC";
    var l := LowerStr("a_BC");
    assert l[2] == 'b' && l[3] == 'c';
  }
}
