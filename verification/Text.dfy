/**
 * Provider text: UTF-8 lengths (section 3 of RFC 3629), white space and controls, truncation on a
 * character boundary, and the sanitizer that flattens text to one bounded line.
 */
module Text {
  import opened Wrappers

  function CharSize(c: char): nat {
    var code := c as int;
    if code < 0x80 then 1 else if code < 0x800 then 2 else if code < 0x1_0000 then 3 else 4
  }

  /** The length in bytes. */
  function Size(s: string): nat {
    if s == [] then 0 else Size(s[..|s| - 1]) + CharSize(s[|s| - 1])
  }

  /** The characters with the Unicode property White_Space. */
  predicate IsWhitespace(c: char) {
    var code := c as int;
    || 0x9 <= code <= 0xD || code == 0x20 || code == 0x85 || code == 0xA0 || code == 0x1680
    || 0x2000 <= code <= 0x200A || code == 0x2028 || code == 0x2029 || code == 0x202F || code == 0x205F || code == 0x3000
  }

  /** The characters of the general category Cc. */
  predicate IsControl(c: char) {
    var code := c as int;
    code < 0x20 || 0x7F <= code < 0xA0
  }

  predicate IsSeparator(c: char) { IsWhitespace(c) || IsControl(c) }

  function TrimEnd(s: string): string {
    if s == [] || !IsWhitespace(s[|s| - 1]) then s else TrimEnd(s[..|s| - 1])
  }

  function TrimStart(s: string): string {
    if s == [] || !IsWhitespace(s[0]) then s else TrimStart(s[1..])
  }

  function Trim(s: string): string { TrimStart(TrimEnd(s)) }

  predicate NoControls(s: string) { forall i :: 0 <= i < |s| ==> !IsControl(s[i]) }

  predicate BoundedText(s: string, max: nat) {
    s != [] && Size(s) <= max && Trim(s) == s && NoControls(s)
  }

  // ---------------------------------------------------------------- truncation

  /** The longest prefix of at most max bytes. */
  function Prefix(s: string, max: nat): string {
    if Size(s) <= max then s else Prefix(s[..|s| - 1], max)
  }

  /** Some character of s, or its end, starts at this byte. */
  predicate IsBoundary(s: string, at: nat) {
    at == Size(s) || (s != [] && IsBoundary(s[..|s| - 1], at))
  }

  function Cut(s: string, at: nat): string
    requires IsBoundary(s, at)
  {
    if at == Size(s) then s else Cut(s[..|s| - 1], at)
  }

  lemma {:induction false} PrefixAtBoundary(s: string, at: nat)
    requires IsBoundary(s, at)
    ensures Cut(s, at) == Prefix(s, at) && Size(Prefix(s, at)) == at && at <= Size(s)
  {
    if at != Size(s) {
      PrefixAtBoundary(s[..|s| - 1], at);
    }
  }

  lemma {:induction false} PrefixOffBoundary(s: string, at: nat)
    requires !IsBoundary(s, at) && at > 0
    ensures Prefix(s, at) == Prefix(s, at - 1)
  {
    if s != [] && Size(s) > at {
      PrefixOffBoundary(s[..|s| - 1], at);
    }
  }

  lemma {:induction false} StartIsBoundary(s: string)
    ensures IsBoundary(s, 0)
  {
    if s != [] {
      StartIsBoundary(s[..|s| - 1]);
    }
  }

  lemma {:induction false} PrefixIsPrefix(s: string, max: nat)
    ensures Prefix(s, max) <= s && Size(Prefix(s, max)) <= max
    ensures s != [] && max >= 4 ==> Prefix(s, max) != []
  {
    if Size(s) > max {
      PrefixIsPrefix(s[..|s| - 1], max);
      if |s| == 1 {
        assert Size(s[..0]) == 0;
      }
    }
  }

  /** Walks back from the limit to the nearest boundary. */
  method PrefixOnBoundary(s: string, max: nat) returns (r: string)
    ensures r == Prefix(s, max)
  {
    if Size(s) <= max {
      return s;
    }
    var end := max;
    StartIsBoundary(s);
    while !IsBoundary(s, end)
      invariant Prefix(s, end) == Prefix(s, max)
      decreases end
    {
      PrefixOffBoundary(s, end);
      end := end - 1;
    }
    PrefixAtBoundary(s, end);
    r := Cut(s, end);
  }

  function Truncated(s: string, max: nat): string {
    if Size(s) <= max then s else TrimEnd(Prefix(s, max))
  }

  // ---------------------------------------------------------------- words

  /** The words ended by a separator, and the run of characters after the last separator. */
  function Split(s: string): (seq<string>, string) {
    if s == [] then ([], [])
    else
      var (done, run) := Split(s[..|s| - 1]);
      var c := s[|s| - 1];
      if IsSeparator(c) then (if run == [] then done else done + [run], [])
      else (done, run + [c])
  }

  function AllWords(done: seq<string>, run: string): seq<string> {
    if run == [] then done else done + [run]
  }

  function Words(s: string): seq<string> {
    var (done, run) := Split(s);
    AllWords(done, run)
  }

  function Join(words: seq<string>): string {
    if |words| == 0 then []
    else if |words| == 1 then words[0]
    else Join(words[..|words| - 1]) + " " + words[|words| - 1]
  }

  function Sanitized(value: string, max: nat): Option<string> {
    var flat := Join(Words(value));
    if flat == [] then None else Some(Truncated(flat, max))
  }

  lemma JoinSnoc(words: seq<string>, w: string)
    ensures Join(words + [w]) == if words == [] then w else Join(words) + " " + w
  {
    assert (words + [w])[..|words|] == words;
  }

  lemma {:induction false} WordsAreNotEmpty(s: string)
    ensures forall w :: w in Split(s).0 ==> w != []
    ensures forall w :: w in Words(s) ==> w != []
  {
    if s != [] {
      WordsAreNotEmpty(s[..|s| - 1]);
    }
  }

  lemma {:induction false} JoinOfWordsIsEmpty(words: seq<string>)
    requires forall w :: w in words ==> w != []
    ensures Join(words) == [] <==> words == []
  {
    if |words| == 1 {
      assert words[0] in words;
    }
  }

  /** The text ends in a separator and a word has ended before it. */
  predicate SpacePends(s: string) {
    Split(s).1 == [] && Split(s).0 != []
  }

  lemma SplitSnoc(s: string, c: char)
    ensures Split(s + [c]) == if !IsSeparator(c) then (Split(s).0, Split(s).1 + [c])
                              else (if Split(s).1 == [] then Split(s).0 else Split(s).0 + [Split(s).1], [])
  {
    assert (s + [c])[..|s|] == s;
  }

  lemma JoinLonger(done: seq<string>, run: string, c: char)
    ensures Join(AllWords(done, run + [c])) ==
            Join(AllWords(done, run)) + (if run == [] && done != [] then " " else "") + [c]
  {
    JoinSnoc(done, run);
    JoinSnoc(done, run + [c]);
  }

  /** What one more character does to the joined words. */
  lemma JoinStep(s: string, c: char)
    ensures Join(Words(s + [c])) ==
            if IsSeparator(c) then Join(Words(s)) else Join(Words(s)) + (if SpacePends(s) then " " else "") + [c]
    ensures SpacePends(s + [c]) <==> IsSeparator(c) && Join(Words(s)) != []
  {
    var (done, run) := Split(s);
    SplitSnoc(s, c);
    JoinLonger(done, run, c);
    WordsAreNotEmpty(s);
    JoinOfWordsIsEmpty(Words(s));
  }

  /** The same, for the characters of one text taken in order. */
  lemma JoinNext(value: string, i: nat)
    requires i < |value|
    ensures Join(Words(value[..i + 1])) ==
            if IsSeparator(value[i]) then Join(Words(value[..i]))
            else Join(Words(value[..i])) + (if SpacePends(value[..i]) then " " else "") + [value[i]]
    ensures SpacePends(value[..i + 1]) <==> IsSeparator(value[i]) && Join(Words(value[..i])) != []
  {
    JoinStep(value[..i], value[i]);
    assert value[..i + 1] == value[..i] + [value[i]];
  }

  /** The single pass with a pending space is the join of the words. */
  method Flatten(value: string) returns (result: string)
    ensures result == Join(Words(value))
  {
    result := [];
    var pendingSpace := false;
    var i := 0;
    while i < |value|
      invariant i <= |value|
      invariant result == Join(Words(value[..i])) && pendingSpace == SpacePends(value[..i])
    {
      JoinNext(value, i);
      if IsSeparator(value[i]) {
        pendingSpace := result != [];
      } else {
        if pendingSpace {
          result := result + " ";
          pendingSpace := false;
        }
        result := result + [value[i]];
      }
      i := i + 1;
    }
    assert value[..i] == value;
  }

  method SanitizedText(value: string, max: nat) returns (r: Option<string>)
    ensures r == Sanitized(value, max)
  {
    var result := Flatten(value);
    if result == [] {
      return None;
    }
    if Size(result) <= max {
      return Some(result);
    }
    var cut := PrefixOnBoundary(result, max);
    r := Some(TrimEnd(cut));
  }

  // ---------------------------------------------------------------- flat text

  /** Begins with no separator, and each separator is one space after a character that is none. */
  predicate Level(s: string) {
    forall i :: 0 <= i < |s| && IsSeparator(s[i]) ==> s[i] == ' ' && i > 0 && !IsSeparator(s[i - 1])
  }

  predicate Flat(s: string) {
    s != [] && Level(s) && !IsSeparator(s[|s| - 1])
  }

  lemma LevelPrefix(s: string, p: string)
    requires Level(s) && p <= s
    ensures Level(p)
  {
    assert p == s[..|p|];
  }

  predicate NoSeparators(s: string) { forall i :: 0 <= i < |s| ==> !IsSeparator(s[i]) }

  lemma {:induction false} WordsHaveNoSeparators(s: string)
    ensures NoSeparators(Split(s).1)
    ensures forall w :: w in Split(s).0 ==> NoSeparators(w)
    ensures forall w :: w in Words(s) ==> NoSeparators(w)
  {
    if s != [] {
      WordsHaveNoSeparators(s[..|s| - 1]);
    }
  }

  lemma {:induction false} JoinIsFlat(words: seq<string>)
    requires words != [] && forall w :: w in words ==> w != [] && NoSeparators(w)
    ensures Flat(Join(words))
  {
    if |words| == 1 {
      assert words[0] in words;
    } else {
      var before, last := words[..|words| - 1], words[|words| - 1];
      assert words == before + [last];
      assert forall w :: w in before ==> w in words;
      JoinIsFlat(before);
      assert last in words;
      JoinTwoIsFlat(Join(before), last);
    }
  }

  lemma JoinTwoIsFlat(s: string, w: string)
    requires Flat(s) && w != [] && NoSeparators(w)
    ensures Flat(s + " " + w)
  {
    var r := s + " " + w;
    forall i | 0 <= i < |r| && IsSeparator(r[i])
      ensures r[i] == ' ' && i > 0 && !IsSeparator(r[i - 1])
    {
      if i < |s| {
        assert r[i] == s[i] && (i > 0 ==> r[i - 1] == s[i - 1]);
      }
    }
  }

  function Spaced(flat: string, pends: bool): string {
    if pends then flat + " " else flat
  }

  /** One more character of level text, against what it does to the joined words. */
  lemma LevelNext(before: string, c: char, flat: string, pends: bool)
    requires Level(before + [c]) && before == Spaced(flat, pends)
    requires pends <==> before != [] && IsSeparator(before[|before| - 1])
    ensures IsSeparator(c) ==> flat != [] && before + [c] == Spaced(flat, true)
  {
    var s := before + [c];
    if IsSeparator(c) {
      assert s[|before|] == c;
      assert s[|before| - 1] == before[|before| - 1];
    }
  }

  /** Level text is the join of its words, but for a space at its end. */
  lemma {:induction false} LevelRejoins(s: string)
    requires Level(s)
    ensures SpacePends(s) <==> s != [] && IsSeparator(s[|s| - 1])
    ensures s == Spaced(Join(Words(s)), SpacePends(s))
  {
    if s != [] {
      var before, c := s[..|s| - 1], s[|s| - 1];
      assert s == before + [c];
      LevelPrefix(s, before);
      LevelRejoins(before);
      LevelNext(before, c, Join(Words(before)), SpacePends(before));
      JoinStep(before, c);
    }
  }

  lemma FlatRejoins(s: string)
    requires Flat(s)
    ensures Join(Words(s)) == s
  {
    LevelRejoins(s);
  }

  lemma {:induction false} TrimEndOfLevel(s: string)
    requires Level(s) && s != []
    ensures Flat(TrimEnd(s)) && TrimEnd(s) <= s && Size(TrimEnd(s)) <= Size(s)
  {
    if IsWhitespace(s[|s| - 1]) {
      LevelPrefix(s, s[..|s| - 1]);
      TrimEndOfLevel(s[..|s| - 1]);
    }
  }

  lemma {:induction false} FlatIsTrimmed(s: string)
    requires Flat(s)
    ensures Trim(s) == s && NoControls(s)
  {
  }

  lemma TruncatedIsFlat(s: string, max: nat)
    requires Flat(s) && max >= 4
    ensures Flat(Truncated(s, max)) && Size(Truncated(s, max)) <= max && Truncated(s, max) <= s
  {
    if Size(s) > max {
      PrefixIsPrefix(s, max);
      LevelPrefix(s, Prefix(s, max));
      TrimEndOfLevel(Prefix(s, max));
    }
  }

  // ---------------------------------------------------------------- words of joined and of cut text

  predicate IsWord(w: string) { w != [] && NoSeparators(w) }

  /** Characters that are no separators extend the run at the end. */
  lemma {:induction false} SplitRun(s: string, run: string)
    requires NoSeparators(run)
    ensures Split(s + run) == (Split(s).0, Split(s).1 + run)
  {
    if run == [] {
      assert s + run == s && Split(s).1 + run == Split(s).1;
    } else {
      var before, c := run[..|run| - 1], run[|run| - 1];
      SplitRun(s, before);
      SplitSnoc(s + before, c);
      assert s + run == s + before + [c];
      assert Split(s).1 + run == Split(s).1 + before + [c];
    }
  }

  /** Joining words and cutting the text into words again gives the words. */
  lemma {:induction false} WordsOfJoin(words: seq<string>)
    requires forall i :: 0 <= i < |words| ==> IsWord(words[i])
    ensures words != [] ==> Split(Join(words)) == (words[..|words| - 1], words[|words| - 1])
    ensures Words(Join(words)) == words
  {
    if |words| == 1 {
      SplitRun([], words[0]);
      assert [] + words[0] == words[0];
    } else if |words| > 1 {
      var before, last := words[..|words| - 1], words[|words| - 1];
      WordsOfJoin(before);
      SplitAfterSpace(Join(before), before, last);
      assert before + [last] == words;
    }
  }

  /** A space and a word after text that splits into these words. */
  lemma SplitAfterSpace(s: string, words: seq<string>, w: string)
    requires words != [] && words[|words| - 1] != [] && Split(s) == (words[..|words| - 1], words[|words| - 1]) && NoSeparators(w)
    ensures Split(s + " " + w) == (words, w)
  {
    SplitSnoc(s, ' ');
    SplitRun(s + " ", w);
    assert words[..|words| - 1] + [words[|words| - 1]] == words;
    assert [] + w == w;
  }

  /** The words of a are the first ones of b, but for the last, of which some may be missing. */
  ghost predicate CutsOff(a: seq<string>, b: seq<string>) {
    && |a| <= |b|
    && (forall i :: 0 <= i < |a| - 1 ==> a[i] == b[i])
    && (a != [] ==> a[|a| - 1] <= b[|a| - 1])
  }

  lemma WordsGrow(s: string, c: char)
    ensures CutsOff(Words(s), Words(s + [c]))
  {
    SplitSnoc(s, c);
  }

  lemma CutsOffTransitive(a: seq<string>, b: seq<string>, c: seq<string>)
    requires CutsOff(a, b) && CutsOff(b, c)
    ensures CutsOff(a, c)
  {
  }

  /** Cutting text cuts its words off. */
  lemma {:induction false} WordsOfPrefix(p: string, s: string)
    requires p <= s
    ensures CutsOff(Words(p), Words(s))
    decreases |s|
  {
    if p == s {
    } else {
      var before := s[..|s| - 1];
      assert s == before + [s[|s| - 1]];
      WordsOfPrefix(p, before);
      WordsGrow(before, s[|s| - 1]);
      CutsOffTransitive(Words(p), Words(before), Words(s));
    }
  }

  // ---------------------------------------------------------------- what the sanitizer promises

  lemma FlattenedIsFlat(value: string)
    requires Join(Words(value)) != []
    ensures Flat(Join(Words(value)))
  {
    WordsAreNotEmpty(value);
    WordsHaveNoSeparators(value);
    JoinOfWordsIsEmpty(Words(value));
    JoinIsFlat(Words(value));
  }

  /** With room for one character, whatever is sanitized is flat, bounded text. */
  lemma SanitizedIsBounded(value: string, max: nat)
    requires max >= 4 && Sanitized(value, max).Some?
    ensures Flat(Sanitized(value, max).value) && BoundedText(Sanitized(value, max).value, max)
  {
    FlattenedIsFlat(value);
    TruncatedIsFlat(Join(Words(value)), max);
    FlatIsTrimmed(Sanitized(value, max).value);
  }

  lemma {:induction false} PrefixIsLongest(s: string, max: nat, p: string)
    requires p <= s && Size(p) <= max
    ensures p <= Prefix(s, max)
  {
    if Size(s) > max {
      assert p != s;
      PrefixIsLongest(s[..|s| - 1], max, p);
    }
  }

  /** What is trimmed off the end is white space. */
  lemma {:induction false} TrimmedEnd(s: string)
    ensures TrimEnd(s) <= s && forall i :: |TrimEnd(s)| <= i < |s| ==> IsWhitespace(s[i])
  {
    if s != [] && IsWhitespace(s[|s| - 1]) {
      TrimmedEnd(s[..|s| - 1]);
    }
  }

  lemma {:induction false} TrimStartShortens(s: string)
    ensures |TrimStart(s)| <= |s|
  {
    if s != [] && IsWhitespace(s[0]) {
      TrimStartShortens(s[1..]);
    }
  }

  /**
   * Nothing is cut off that there is room for: the sanitized text begins the joined words, and of
   * their beginnings it is the longest that is bounded text.
   */
  lemma SanitizedIsLongest(value: string, max: nat, p: string)
    requires Sanitized(value, max).Some? && p <= Join(Words(value)) && BoundedText(p, max)
    ensures p <= Sanitized(value, max).value <= Join(Words(value))
  {
    var flat := Join(Words(value));
    if Size(flat) > max {
      var cut := Prefix(flat, max);
      PrefixIsPrefix(flat, max);
      PrefixIsLongest(flat, max, p);
      TrimmedEnd(cut);
      TrimStartShortens(TrimEnd(p));
      if |p| > |TrimEnd(cut)| {
        assert IsWhitespace(p[|p| - 1]);
        TrimmedEnd(p[..|p| - 1]);
      }
    }
  }

  /** There is text exactly when some character is no separator. */
  lemma SanitizedSomeIff(value: string, max: nat)
    ensures Sanitized(value, max).Some? <==> Words(value) != []
  {
    WordsAreNotEmpty(value);
    JoinOfWordsIsEmpty(Words(value));
  }

  /** Sanitizing what was sanitized changes nothing. */
  lemma SanitizingIsIdempotent(value: string, max: nat)
    requires max >= 4 && Sanitized(value, max).Some?
    ensures Sanitized(Sanitized(value, max).value, max) == Sanitized(value, max)
  {
    SanitizedIsBounded(value, max);
    FlatRejoins(Sanitized(value, max).value);
  }

  lemma {:induction false} PrefixIsEmptyIff(s: string, max: nat)
    requires s != []
    ensures Prefix(s, max) != [] <==> CharSize(s[0]) <= max
  {
    if |s| == 1 {
      assert s[..0] == [] && Size(s[..0]) == 0;
    } else {
      PrefixIsEmptyIff(s[..|s| - 1], max);
      if Size(s) <= max {
        SizeOfFirst(s);
      }
    }
  }

  lemma {:induction false} SizeOfFirst(s: string)
    requires s != []
    ensures CharSize(s[0]) <= Size(s)
  {
    if |s| > 1 {
      SizeOfFirst(s[..|s| - 1]);
    }
  }

  /** The exact condition for any limit: there is room for the first character that is no separator. */
  lemma SanitizedIsBoundedIff(value: string, max: nat)
    requires Sanitized(value, max).Some?
    ensures Join(Words(value)) != []
    ensures BoundedText(Sanitized(value, max).value, max) <==> CharSize(Join(Words(value))[0]) <= max
  {
    FlattenedIsFlat(value);
    FlatIsBoundedIff(Join(Words(value)), max);
  }

  lemma FlatIsBoundedIff(s: string, max: nat)
    requires Flat(s)
    ensures BoundedText(Truncated(s, max), max) <==> CharSize(s[0]) <= max
  {
    if Size(s) <= max {
      SizeOfFirst(s);
      FlatIsTrimmed(s);
    } else {
      PrefixIsEmptyIff(s, max);
      PrefixIsPrefix(s, max);
      LevelPrefix(s, Prefix(s, max));
      if Prefix(s, max) != [] {
        TrimEndOfLevel(Prefix(s, max));
        FlatIsTrimmed(Truncated(s, max));
      }
    }
  }

  /** Text joined of words is sanitized to its words, the last ones cut off when there is no room. */
  lemma SanitizedWords(words: seq<string>, max: nat)
    requires max >= 4 && words != [] && forall i :: 0 <= i < |words| ==> IsWord(words[i])
    ensures Sanitized(Join(words), max).Some?
    ensures var r := Sanitized(Join(words), max).value;
            CutsOff(Words(r), words) && (Size(Join(words)) <= max ==> Words(r) == words)
  {
    WordsOfJoin(words);
    JoinIsFlat(words);
    FlatWords(Join(words), words, max);
  }

  lemma FlatWords(s: string, words: seq<string>, max: nat)
    requires max >= 4 && Flat(s) && Words(s) == words && Join(words) == s
    ensures Sanitized(s, max) == Some(Truncated(s, max))
    ensures CutsOff(Words(Truncated(s, max)), words) && (Size(s) <= max ==> Words(Truncated(s, max)) == words)
  {
    TruncatedIsFlat(s, max);
    WordsOfPrefix(Truncated(s, max), s);
  }

  /** Below four bytes a wide character leaves an empty text, which is not bounded text. */
  lemma NarrowLimitLeavesNothing(max: nat)
    requires max < 4
    ensures Sanitized(['\U{1F600}'], max) == Some("") && !BoundedText("", max)
  {
    var s: string := ['\U{1F600}'];
    var none: string := [];
    assert s == none + s && s[..0] == none;
    JoinStep(none, s[0]);
    assert Join(Words(s)) == s && Size(s) == 4;
    assert Prefix(s, max) == Prefix([], max) == [];
  }

  lemma {:induction false} JoinHasOnlyItsCharacters(words: seq<string>, c: char)
    requires c in Join(words) && c != ' '
    ensures exists i :: 0 <= i < |words| && c in words[i]
  {
    if |words| == 1 {
      assert c in words[0];
    } else {
      var last := |words| - 1;
      if c in words[last] {
      } else {
        JoinHasOnlyItsCharacters(words[..last], c);
        var i :| 0 <= i < |words[..last]| && c in words[..last][i];
        assert words[i] == words[..last][i];
      }
    }
  }

  lemma {:induction false} SplitHasOnlyItsCharacters(s: string, c: char)
    requires c in Split(s).1 || exists w :: w in Split(s).0 && c in w
    ensures c in s
  {
    if s != [] {
      var before := s[..|s| - 1];
      assert s == before + [s[|s| - 1]];
      if c in before {
      } else {
        if c in Split(before).1 || exists w :: w in Split(before).0 && c in w {
          SplitHasOnlyItsCharacters(before, c);
        }
      }
    }
  }

  /** The sanitizer adds no character but spaces. */
  lemma SanitizedHasOnlyItsCharacters(value: string, max: nat, c: char)
    requires max >= 4 && Sanitized(value, max).Some? && c in Sanitized(value, max).value && c != ' '
    ensures c in value
  {
    FlattenedIsFlat(value);
    TruncatedIsFlat(Join(Words(value)), max);
    JoinHasOnlyItsCharacters(Words(value), c);
    var i :| 0 <= i < |Words(value)| && c in Words(value)[i];
    SplitHasOnlyItsCharacters(value, c);
  }

  /** Bounded text: not empty, within its bytes, no white space at either end and no control anywhere. */
  lemma BoundedTextIff(s: string, max: nat)
    ensures BoundedText(s, max) <==>
            && s != [] && Size(s) <= max && !IsWhitespace(s[0]) && !IsWhitespace(s[|s| - 1])
            && forall c :: c in s ==> !IsControl(c)
  {
    if s != [] {
      TrimmedEnd(s[..|s| - 1]);
      TrimStartShortens(s[1..]);
      TrimStartShortens(TrimEnd(s));
      assert forall c :: c in s ==> exists i :: 0 <= i < |s| && s[i] == c;
    }
  }

  // ---------------------------------------------------------------- the classes of characters, listed

  /** All characters with the property White_Space. */
  lemma WhitespaceCharacters(c: char)
    ensures IsWhitespace(c) <==>
            c as int in [0x9, 0xA, 0xB, 0xC, 0xD, 0x20, 0x85, 0xA0, 0x1680, 0x2000, 0x2001, 0x2002, 0x2003, 0x2004,
                         0x2005, 0x2006, 0x2007, 0x2008, 0x2009, 0x200A, 0x2028, 0x2029, 0x202F, 0x205F, 0x3000]
  {
  }

  /** The controls: the 32 first ones, the delete character, and the 32 after it. */
  lemma ControlCharacters(c: char)
    ensures IsControl(c) <==> c as int / 32 == 0 || c as int == 127 || c as int / 32 == 4
  {
  }

  /** The length of a character in UTF-8: as many bytes as its code needs at 7, 11, 16 or 21 bits. */
  lemma SizesOfCharacters(c: char)
    ensures var code := c as int;
            && (CharSize(c) == 1 <==> code <= 0x7F) && (CharSize(c) == 2 <==> 0x80 <= code <= 0x7FF)
            && (CharSize(c) == 3 <==> 0x800 <= code <= 0xFFFF) && (CharSize(c) == 4 <==> 0x1_0000 <= code)
  {
  }
}
